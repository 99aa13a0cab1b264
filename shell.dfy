/**
 * The evaluator of shell.c over its token arrays.
 *
 * The C functions receive `tokens`, a NULL-terminated array of strings, and
 * `quoted_tokens`, a parallel array of flags, both addressed from some
 * offset (`&tokens[tok_idx]`).  Here an offset `lo` into the same two
 * arrays plays that part, `None` plays NULL, and each method returns the
 * `Plan` the C function carries out; it is proved to be the plan
 * `ShellPlan` computes from the token list the arrays hold.
 *
 * Where the C code writes `tokens[tok_idx] = NULL` to cut a list short, it
 * does so in a forked child, whose memory is a copy of its parent's; the
 * methods below give the child a fresh copy of the array (ForkCopy) and
 * write there, so no method changes the arrays it is given.
 */
module Shell {
  import opened Wrappers
  import opened TokenizeLib
  import opened ShellPlan
  import opened ShellLaws

  /** Size of the token arrays (MAX_LINE_CHARS + 1). */
  const TokenSlots: nat := MaxLineChars + 1

  /** From `lo` on, `tokens` holds the texts of ts followed by NULL. */
  ghost predicate Lists(tokens: array<Option<string>>, lo: nat, ts: seq<Token>)
    reads tokens
  {
    lo + |ts| < tokens.Length && tokens[lo + |ts|] == None &&
    forall k :: lo <= k < lo + |ts| ==> tokens[k] == Some(ts[k - lo].text)
  }

  /** Lists, and `quoted` holds the tokens' quote flags at the same places. */
  ghost predicate Holds(tokens: array<Option<string>>, quoted: array<bool>, lo: nat, ts: seq<Token>)
    reads tokens, quoted
  {
    Lists(tokens, lo, ts) && quoted.Length == tokens.Length &&
    forall k :: lo <= k < lo + |ts| ==> quoted[k] == ts[k - lo].quoted
  }

  /** The argument vector execvp reads from `&tokens[i]`: entries up to the NULL. */
  function ArgvFrom(tokens: array<Option<string>>, i: nat): seq<string>
    reads tokens
    decreases tokens.Length - i
  {
    if i >= tokens.Length || tokens[i].None? then [] else [tokens[i].value] + ArgvFrom(tokens, i + 1)
  }

  /** execvp sees exactly the texts of the listed tokens. */
  lemma {:induction false} ArgvFromLists(tokens: array<Option<string>>, lo: nat, ts: seq<Token>)
    requires Lists(tokens, lo, ts)
    ensures ArgvFrom(tokens, lo) == Texts(ts)
    decreases |ts|
  {
    if ts != [] {
      assert tokens[lo] == Some(ts[0].text);
      ArgvFromLists(tokens, lo + 1, ts[1..]);
      assert Texts(ts) == [ts[0].text] + Texts(ts[1..]);
    }
  }

  /** The first index that is an operator, scanning left to right, is FindOperator's. */
  lemma OperatorAt(ts: seq<Token>, ops: set<string>, j: nat)
    requires j < |ts| && j <= FindOperator(ts, ops) && IsOperatorIn(ts[j], ops)
    ensures FindOperator(ts, ops) == j
  {
    FindOperatorFirst(ts, ops);
    var f := FindOperator(ts, ops);
    assert forall m :: 0 <= m < f ==> !IsOperatorIn(ts[m], ops) by {
      forall m | 0 <= m < f
        ensures !IsOperatorIn(ts[m], ops)
      {
        assert ts[..f][m] == ts[m];
      }
    }
  }

  /** Cutting the list with a NULL at position lo + j leaves the first j tokens listed. */
  lemma CutHolds(tokens: array<Option<string>>, quoted: array<bool>, lo: nat, ts: seq<Token>, j: nat)
    requires j <= |ts| && lo + |ts| < tokens.Length && quoted.Length == tokens.Length
    requires tokens[lo + j] == None
    requires forall k :: lo <= k < lo + j ==> tokens[k] == Some(ts[k - lo].text) && quoted[k] == ts[k - lo].quoted
    ensures Holds(tokens, quoted, lo, ts[..j])
  {
  }

  /** The part of the list from position lo + j on is itself a list. */
  lemma RestHolds(tokens: array<Option<string>>, quoted: array<bool>, lo: nat, ts: seq<Token>, j: nat)
    requires Holds(tokens, quoted, lo, ts) && j <= |ts|
    ensures Holds(tokens, quoted, lo + j, ts[j..])
  {
  }

  /**
   * fork, as far as the token list is concerned: the child goes on with its
   * own copy of the array, so what it writes there the parent never sees.
   */
  method ForkCopy(tokens: array<Option<string>>) returns (copy: array<Option<string>>)
    ensures fresh(copy) && copy.Length == tokens.Length
    ensures forall k :: 0 <= k < tokens.Length ==> copy[k] == tokens[k]
  {
    copy := new Option<string>[tokens.Length](k requires 0 <= k < tokens.Length reads tokens => tokens[k]);
  }

  /**
   * process_redirects: scans for the first unquoted `<` or `>`; with no file
   * after it, reports; otherwise hands over to RedirectAt.  With no
   * operator, the whole list goes to exec_cmd.
   */
  method ProcessRedirects(tokens: array<Option<string>>, quoted: array<bool>, lo: nat, ghost ts: seq<Token>)
    returns (p: Plan)
    requires Holds(tokens, quoted, lo, ts)
    ensures p == RedirectPlan(ts)
    decreases |ts|, 1
  {
    var i := lo;
    while tokens[i] != None
      invariant lo <= i <= lo + |ts|
      invariant i - lo <= FindOperator(ts, RedirectOps)
      decreases lo + |ts| - i
    {
      if (tokens[i] == Some("<") || tokens[i] == Some(">")) && !quoted[i] {
        OperatorAt(ts, RedirectOps, i - lo);
        if tokens[i + 1] == None {
          return Report(NoRedirectFile);
        }
        p := RedirectAt(tokens, quoted, lo, ts, i);
        return;
      }
      i := i + 1;
    }
    ArgvFromLists(tokens, lo, ts);
    p := Exec(ArgvFrom(tokens, lo));
  }

  /**
   * The redirection at index i, with its file name at i + 1: a child cuts
   * the list with a NULL at i and runs the tokens before it with stdin or
   * stdout redirected; once it is done, the tokens after the file name are
   * processed as a command of their own.
   */
  method RedirectAt(tokens: array<Option<string>>, quoted: array<bool>, lo: nat, ghost ts: seq<Token>, i: nat)
    returns (p: Plan)
    requires Holds(tokens, quoted, lo, ts)
    requires lo <= i && i - lo == FindOperator(ts, RedirectOps) && i + 1 < lo + |ts|
    ensures p == RedirectPlan(ts)
    decreases |ts|, 0
  {
    ghost var j := i - lo;
    var dir := DirectionOf(tokens[i].value);
    var file := tokens[i + 1].value;
    RestHolds(tokens, quoted, lo, ts, j + 2);
    var child := ForkCopy(tokens);
    child[i] := None;
    CutHolds(child, quoted, lo, ts, j);
    var body := ProcessRedirects(child, quoted, lo, ts[..j]);
    var rest := ProcessRedirects(tokens, quoted, i + 2, ts[j + 2..]);
    RedirectPlanUnfold(ts, j);
    p := Then(Forked(Redirect(dir, file, body)), rest);
  }

  /**
   * process_pipes: cd, source and help are carried out on their own; for
   * anything else, scans for the first unquoted `|` and hands over to
   * PipeAt, or, with none, passes the whole list to process_redirects.
   * `cli` is the line buffer (input_cli), None when NULL, and `files` the
   * scripts source can open; returns the plan and the buffer afterwards.
   */
  method ProcessPipes(tokens: array<Option<string>>, quoted: array<bool>, lo: nat, ghost ts: seq<Token>,
                      cli: Option<string>, files: map<string, seq<string>>)
    returns (p: Plan, newCli: Option<string>)
    requires Holds(tokens, quoted, lo, ts) && PipeDefined(ts) && ScriptsDefined(files)
    ensures p == PipePlan(ts, cli.Some?)
    ensures newCli == BufferAfter(InterpreterEffects(p), files, cli)
    decreases |ts|, 1
  {
    newCli := cli;
    var command := tokens[lo].value;
    if command == "cd" {
      if tokens[lo + 1] != None {
        p := Cd(tokens[lo + 1].value);
        return;
      }
      return Nothing, cli;
    } else if command == "source" {
      if tokens[lo + 1] != None {
        var path := tokens[lo + 1].value;
        p := Source(path, cli.Some?);
        if cli.Some? {
          // The script's own commands are ExecSource's plan; the Source
          // node stands for them here.  What persists is the buffer.
          var script;
          script, newCli := ExecSource(path, ScriptAt(files, path), cli);
        }
        return;
      }
      return Nothing, cli;
    } else if command == "help" {
      return Help, cli;
    }
    var i := lo;
    while tokens[i] != None
      invariant lo <= i <= lo + |ts|
      invariant i - lo <= FindOperator(ts, PipeOps)
      decreases lo + |ts| - i
    {
      if tokens[i] == Some("|") && !quoted[i] {
        OperatorAt(ts, PipeOps, i - lo);
        p := PipeAt(tokens, quoted, lo, ts, i, files);
        return;
      }
      i := i + 1;
    }
    p := ProcessRedirects(tokens, quoted, lo, ts);
  }

  /**
   * The pipe at index i: a child cuts the list with a NULL at i and runs the
   * tokens before it through process_redirects with stdout on the pipe; the
   * tokens after the `|` go to process_pipes, with stdin on the pipe and no
   * line buffer.
   */
  method PipeAt(tokens: array<Option<string>>, quoted: array<bool>, lo: nat, ghost ts: seq<Token>, i: nat,
                files: map<string, seq<string>>)
    returns (p: Plan)
    requires Holds(tokens, quoted, lo, ts) && PipeDefined(ts) && ts[0].text !in Builtins && ScriptsDefined(files)
    requires lo <= i && i - lo == FindOperator(ts, PipeOps) && i < lo + |ts|
    ensures forall hasBuffer: bool :: p == PipePlan(ts, hasBuffer)
    decreases |ts|, 0
  {
    ghost var j := i - lo;
    RestHolds(tokens, quoted, lo, ts, j + 1);
    var child := ForkCopy(tokens);
    child[i] := None;
    CutHolds(child, quoted, lo, ts, j);
    var producer := ProcessRedirects(child, quoted, lo, ts[..j]);
    PipePlanAt(ts, false, j);
    // The consumer's buffer is NULL and it runs in a child: what it leaves is lost.
    var consumer, _ := ProcessPipes(tokens, quoted, i + 1, ts[j + 1..], None, files);
    p := Forked(Pipe(producer, consumer));
    forall hasBuffer: bool
      ensures p == PipePlan(ts, hasBuffer)
    {
      PipePlanAt(ts, hasBuffer, j);
    }
  }

  /**
   * process_sequence: scans for the first unquoted `;` and hands over to
   * SequenceAt, or, with none, passes the whole list to process_pipes.
   * Returns the plan and the line buffer afterwards.
   */
  method ProcessSequence(tokens: array<Option<string>>, quoted: array<bool>, lo: nat, ghost ts: seq<Token>,
                         cli: string, files: map<string, seq<string>>)
    returns (p: Plan, newCli: string)
    requires Holds(tokens, quoted, lo, ts) && SequenceDefined(ts) && ScriptsDefined(files)
    ensures p == SequencePlan(ts)
    ensures Some(newCli) == BufferAfter(InterpreterEffects(p), files, Some(cli))
    decreases |ts|, 1
  {
    var i := lo;
    while tokens[i] != None
      invariant lo <= i <= lo + |ts|
      invariant i - lo <= FindOperator(ts, SequenceOps)
      decreases lo + |ts| - i
    {
      if tokens[i] == Some(";") && !quoted[i] {
        OperatorAt(ts, SequenceOps, i - lo);
        p, newCli := SequenceAt(tokens, quoted, lo, ts, i, cli, files);
        return;
      }
      i := i + 1;
    }
    var after;
    p, after := ProcessPipes(tokens, quoted, lo, ts, Some(cli), files);
    newCli := after.value;
  }

  /**
   * The `;` at index i: a child cuts the list with a NULL at i and runs the
   * tokens before it through process_pipes; once it is done, the tokens
   * after the `;` are processed in the shell's own process.
   */
  method SequenceAt(tokens: array<Option<string>>, quoted: array<bool>, lo: nat, ghost ts: seq<Token>, i: nat,
                    cli: string, files: map<string, seq<string>>)
    returns (p: Plan, newCli: string)
    requires Holds(tokens, quoted, lo, ts) && SequenceDefined(ts) && ScriptsDefined(files)
    requires lo <= i && i - lo == FindOperator(ts, SequenceOps) && i < lo + |ts|
    ensures p == SequencePlan(ts)
    ensures Some(newCli) == BufferAfter(InterpreterEffects(p), files, Some(cli))
    decreases |ts|, 0
  {
    ghost var j := i - lo;
    RestHolds(tokens, quoted, lo, ts, j + 1);
    var child := ForkCopy(tokens);
    child[i] := None;
    CutHolds(child, quoted, lo, ts, j);
    // The child writes its own copy of the buffer; the shell's is untouched.
    var first, _ := ProcessPipes(child, quoted, lo, ts[..j], Some(cli), files);
    var rest;
    rest, newCli := ProcessSequence(tokens, quoted, i + 1, ts[j + 1..], cli, files);
    p := Then(Forked(first), rest);
    BufferAfterThen(Forked(first), rest, files, Some(cli));
  }

  /**
   * The token arrays of process_input, zero-filled and then filled by
   * tokenize from the line; `buffer` is the input buffer afterwards, from
   * which tokenize has dropped the trailing newline in place.
   */
  method TokenizeLine(input: string) returns (tokens: array<Option<string>>, quoted: array<bool>, buffer: string)
    requires LineDefined(input)
    ensures fresh(tokens) && fresh(quoted)
    ensures Holds(tokens, quoted, 0, LexLine(input).value)
    ensures tokens[0] == Some("prev") <==> StartsWithPrev(input)
    ensures buffer == StripNewline(input)
  {
    tokens := new Option<string>[TokenSlots](_ => None);
    quoted := new bool[TokenSlots](_ => false);
    var count := Tokenize(input, tokens, quoted);
    buffer := StripNewline(input);
  }

  /** A step with no shell-process effect leaves the line buffer to what follows it. */
  lemma BufferAfterThen(first: Plan, next: Plan, files: map<string, seq<string>>, cli: Option<string>)
    requires InterpreterEffects(first) == []
    ensures BufferAfter(InterpreterEffects(Then(first, next)), files, cli) == BufferAfter(InterpreterEffects(next), files, cli)
  {
    assert InterpreterEffects(Then(first, next)) == InterpreterEffects(next);
  }

  /** A prev line with a stored line: the stored line is evaluated in its place. */
  lemma InputReplay(input: string, prev: string)
    requires InputDefined(input, prev) && StartsWithPrev(input) && prev != []
    ensures InputDefined(prev, prev) && !StartsWithPrev(prev)
    ensures InputPlan(input, prev) == Then(Echo(prev), InputPlan(prev, prev))
    ensures EvaluatedLine(input, prev) == EvaluatedLine(prev, prev)
  {
  }

  /** A prev line with nothing stored: only the report. */
  lemma InputNoHistory(input: string)
    requires InputDefined(input, []) && StartsWithPrev(input)
    ensures InputPlan(input, []) == Report(NoPreviousCommand) && EvaluatedLine(input, []) == StripNewline(input)
  {
  }

  /** Any other line goes to the sequence stage as it is. */
  lemma InputSequence(input: string, prev: string)
    requires InputDefined(input, prev) && !StartsWithPrev(input)
    ensures SequenceDefined(LexLine(input).value)
    ensures InputPlan(input, prev) == SequencePlan(LexLine(input).value)
    ensures EvaluatedLine(input, prev) == StripNewline(input)
  {
  }

  /**
   * process_input: tokenizes the line; `prev` prints the stored line, copies
   * it into the input buffer and processes it; anything else goes to
   * process_sequence, which may overwrite the input buffer through a
   * source run in the shell's own process.  `files` holds the scripts
   * source can open.  Returns the plan and the input buffer afterwards.
   */
  method ProcessInput(input: string, prev: string, files: map<string, seq<string>>) returns (p: Plan, newInput: string)
    requires InputDefined(input, prev) && ScriptsDefined(files)
    ensures p == InputPlan(input, prev)
    ensures Some(newInput) == BufferAfter(InterpreterEffects(p), files, Some(EvaluatedLine(input, prev)))
    decreases if StartsWithPrev(input) then 1 else 0
  {
    var tokens, quoted, buffer := TokenizeLine(input);
    ghost var ts := LexLine(input).value;
    if tokens[0] == Some("prev") {
      if prev != [] {
        var replay;
        InputReplay(input, prev);
        replay, newInput := ProcessInput(prev, prev, files);
        p := Then(Echo(prev), replay);
        BufferAfterThen(Echo(prev), replay, files, Some(EvaluatedLine(input, prev)));
      } else {
        InputNoHistory(input);
        p := Report(NoPreviousCommand);
        newInput := buffer;
      }
    } else {
      InputSequence(input, prev);
      p, newInput := ProcessSequence(tokens, quoted, 0, ts, buffer, files);
    }
  }

  /** The message exec_source prints when the script cannot be opened. */
  function NoSuchScript(path: string): string
  {
    "source: " + path + ": No such file"
  }

  /** A script line without its newline is a line tokenize accepts. */
  lemma StrippedScriptLine(line: string)
    requires ScriptLineDefined(line)
    ensures 0 < |StripNewline(line)| < TokenSlots && '\0' !in StripNewline(line)
    ensures LexLine(StripNewline(line)).Some?
  {
    StripNewlineShape(line);
  }

  /** One more line on a script is one more command at its end. */
  lemma SourceScriptSnoc(argvs: seq<seq<string>>, n: nat)
    requires n < |argvs|
    ensures SourceScript(argvs[..n + 1]) == Then(SourceScript(argvs[..n]), Exec(argvs[n]))
  {
    assert argvs[..n + 1][..n] == argvs[..n];
  }

  /**
   * One pass of exec_source's loop: strips the newline off line `n`,
   * tokenizes it into the shared arrays and hands the argument vector read
   * back from them to exec_cmd, after the commands of the lines before it.
   */
  method SourceLine(lines: seq<string>, n: nat, ghost argvs: seq<seq<string>>, p: Plan,
                    tokens: array<Option<string>>, quoted: array<bool>)
    returns (line: string, next: Plan)
    requires forall line :: line in lines ==> ScriptLineDefined(line)
    requires argvs == ScriptArgvs(lines) && n < |lines| && p == SourceScript(argvs[..n])
    requires tokens.Length == TokenSlots && quoted.Length == TokenSlots
    modifies tokens, quoted
    ensures line == StripNewline(lines[n]) && next == SourceScript(argvs[..n + 1])
  {
    var raw := lines[n];
    assert raw in lines;
    line := StripNewline(raw);
    StrippedScriptLine(raw);
    var count := Tokenize(line, tokens, quoted);
    ArgvFromLists(tokens, 0, LexLine(line).value);
    var argv := ArgvFrom(tokens, 0);
    SourceScriptSnoc(argvs, n);
    next := Then(p, Exec(argv));
  }

  /** The line buffer after the first `n` lines of a script: the last of them, stripped. */
  function CliAfter(cli: Option<string>, lines: seq<string>, n: nat): Option<string>
    requires n <= |lines|
  {
    if n == 0 then cli else Some(StripNewline(lines[n - 1]))
  }

  lemma CliAfterNext(cli: Option<string>, lines: seq<string>, n: nat)
    requires n < |lines|
    ensures CliAfter(cli, lines, n + 1) == Some(StripNewline(lines[n]))
  {
  }

  /**
   * exec_source: `file` is the script's lines as fgets returns them, or None
   * when it cannot be opened; `cli` is the line buffer, None when NULL.
   * Each line, without its newline, is tokenized and handed to exec_cmd as
   * it is, and is then copied into the line buffer.  A script that opens
   * must have a line: with none, the token array exec_source frees at the
   * end was never filled.
   */
  method ExecSource(path: string, file: Option<seq<string>>, cli: Option<string>)
    returns (p: Plan, newCli: Option<string>)
    requires file.Some? ==> file.value != [] && forall line :: line in file.value ==> ScriptLineDefined(line)
    requires file.Some? ==> cli.Some?
    ensures file.None? ==> p == Report(NoSuchScript(path)) && newCli == cli
    ensures file.Some? ==> p == SourceScript(ScriptArgvs(file.value))
    ensures file.Some? ==> newCli == Some(StripNewline(file.value[|file.value| - 1]))
  {
    if file.None? {
      return Report(NoSuchScript(path)), cli;
    }
    var lines := file.value;
    ghost var argvs := ScriptArgvs(lines);
    var tokens := new Option<string>[TokenSlots](_ => None);
    var quoted := new bool[TokenSlots](_ => false);
    p, newCli := Nothing, cli;
    var n := 0;
    while n < |lines|
      invariant n <= |lines|
      invariant p == SourceScript(argvs[..n])
      invariant newCli == CliAfter(cli, lines, n)
    {
      var line;
      line, p := SourceLine(lines, n, argvs, p, tokens, quoted);
      newCli := Some(line);
      CliAfterNext(cli, lines, n);
      n := n + 1;
    }
    assert argvs[..n] == argvs;
  }
}
