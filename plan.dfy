/**
 * The command-line evaluator of the mini-shell (shell.c) as a plan builder.
 *
 * The shell splits a token list in three stages: at the first unquoted `;`
 * (process_sequence), then at the first unquoted `|` (process_pipes, which
 * first dispatches the built-ins cd, source and help), then at the first
 * unquoted `<` or `>` (process_redirects), and finally hands what is left to
 * execvp (exec_cmd).  Process creation, waiting, pipes and descriptor
 * juggling are not simulated: each becomes a node of a `Plan`, and the
 * functions below compute the plan the shell carries out for a token list.
 */
module ShellPlan {
  import opened Wrappers
  import opened TokenizeLib

  /** Size of the line buffers, without the terminator (MAX_LINE_CHARS). */
  const MaxLineChars: nat := 255

  const NoRedirectFile: string := "No redirect file specified"
  const NoPreviousCommand: string := "No previous commands run, please run a command before running \"prev\""

  const SequenceOps: set<string> := {";"}
  const PipeOps: set<string> := {"|"}
  const RedirectOps: set<string> := {"<", ">"}

  /** Names process_pipes handles itself, compared by text alone. */
  const Builtins: set<string> := {"cd", "source", "help"}

  datatype Direction = FromFile | ToFile

  /** `<` reads from the file; the other operator, `>`, writes to it. */
  function DirectionOf(op: string): Direction
  {
    if op == "<" then FromFile else ToFile
  }

  /**
   * What the shell does for a command line.
   *   Exec(argv)           fork, execvp(argv[0], argv) in the child, wait;
   *                        argv == [] is the call with argv[0] == NULL
   *   Forked(body)         body runs in a child process the caller waits for
   *   Then(first, next)    first, then next, in the same process
   *   Pipe(prod, cons)     prod runs in a further child with stdout bound to a
   *                        pipe, cons runs here with stdin bound to it
   *   Redirect(d, f, body) stdin from (FromFile) or stdout to (ToFile, created
   *                        or truncated) file f, then body; nothing runs if
   *                        the file cannot be opened
   *   Cd(path)             chdir in the current process
   *   Source(path, b)      run the script `path`; b is false when the line
   *                        buffer the script's last line goes to is NULL
   *   Help                 the built-in help text
   *   Echo(line)           print the line
   *   Report(message)      print an error message and run nothing
   */
  datatype Plan =
    | Nothing
    | Exec(argv: seq<string>)
    | Forked(body: Plan)
    | Then(first: Plan, next: Plan)
    | Pipe(producer: Plan, consumer: Plan)
    | Redirect(dir: Direction, file: string, body: Plan)
    | Cd(path: string)
    | Source(path: string, hasBuffer: bool)
    | Help
    | Echo(line: string)
    | Report(message: string)

  // ---------------------------------------------------------------------------
  // Operators

  /** The token is one of `ops` and did not come from inside quotes. */
  predicate IsOperatorIn(t: Token, ops: set<string>)
  {
    !t.quoted && t.text in ops
  }

  /** Index of the first unquoted operator of `ops` in ts, or |ts| if none. */
  function FindOperator(ts: seq<Token>, ops: set<string>): (k: nat)
    ensures k <= |ts|
    ensures k < |ts| ==> IsOperatorIn(ts[k], ops)
    decreases |ts|
  {
    if ts == [] || IsOperatorIn(ts[0], ops) then 0 else 1 + FindOperator(ts[1..], ops)
  }

  /** The argument vector built from tokens: their texts, in order. */
  function Texts(ts: seq<Token>): (argv: seq<string>)
    ensures |argv| == |ts|
    ensures forall k :: 0 <= k < |ts| ==> argv[k] == ts[k].text
  {
    if ts == [] then [] else [ts[0].text] + Texts(ts[1..])
  }

  // ---------------------------------------------------------------------------
  // The three stages

  /**
   * process_redirects: the tokens before the first unquoted `<`/`>` run in a
   * child with the redirection; once that child is done, the tokens after
   * the file name are evaluated again, as a separate command.
   */
  function RedirectPlan(ts: seq<Token>): (p: Plan)
    ensures InterpreterEffects(p) == []
    decreases |ts|
  {
    var k := FindOperator(ts, RedirectOps);
    if k == |ts| then Exec(Texts(ts))
    else if k + 1 == |ts| then Report(NoRedirectFile)
    else
      Then(Forked(Redirect(DirectionOf(ts[k].text), ts[k + 1].text, RedirectPlan(ts[..k]))), RedirectPlan(ts[k + 2..]))
  }

  /**
   * The token lists process_pipes can be given without reading tokens[0]
   * when it is NULL: the list and every consumer after an unquoted `|`
   * are non-empty.
   */
  predicate PipeDefined(ts: seq<Token>)
    decreases |ts|
  {
    if ts == [] then false
    else if ts[0].text in Builtins then true
    else
      var k := FindOperator(ts, PipeOps);
      k == |ts| || PipeDefined(ts[k + 1..])
  }

  /**
   * process_pipes: a list starting with a built-in name is that built-in and
   * nothing else; otherwise the tokens before the first unquoted `|` feed
   * the pipe and the tokens after it read from it.
   */
  function PipePlan(ts: seq<Token>, hasBuffer: bool): (p: Plan)
    requires PipeDefined(ts)
    ensures ts[0].text !in Builtins ==> InterpreterEffects(p) == []
    ensures |InterpreterEffects(p)| <= 1
    decreases |ts|
  {
    if ts[0].text == "cd" then (if |ts| > 1 then Cd(ts[1].text) else Nothing)
    else if ts[0].text == "source" then (if |ts| > 1 then Source(ts[1].text, hasBuffer) else Nothing)
    else if ts[0].text == "help" then Help
    else
      var k := FindOperator(ts, PipeOps);
      if k == |ts| then RedirectPlan(ts)
      else Forked(Pipe(RedirectPlan(ts[..k]), PipePlan(ts[k + 1..], false)))
  }

  /** Every `;`-separated segment is a list process_pipes accepts. */
  predicate SequenceDefined(ts: seq<Token>)
    decreases |ts|
  {
    var k := FindOperator(ts, SequenceOps);
    if k == |ts| then PipeDefined(ts) else PipeDefined(ts[..k]) && SequenceDefined(ts[k + 1..])
  }

  /**
   * process_sequence: the segment before the first unquoted `;` runs in a
   * child that is waited for, then the rest is evaluated; the last segment
   * runs in the shell's own process.
   */
  function SequencePlan(ts: seq<Token>): (p: Plan)
    requires SequenceDefined(ts)
    ensures |InterpreterEffects(p)| <= 1
    decreases |ts|
  {
    var k := FindOperator(ts, SequenceOps);
    if k == |ts| then PipePlan(ts, true)
    else Then(Forked(PipePlan(ts[..k], true)), SequencePlan(ts[k + 1..]))
  }

  /** The tokens after the last unquoted `;`. */
  function LastSegment(ts: seq<Token>): (seg: seq<Token>)
    ensures SequenceDefined(ts) ==> PipeDefined(seg)
    decreases |ts|
  {
    var k := FindOperator(ts, SequenceOps);
    if k == |ts| then ts else LastSegment(ts[k + 1..])
  }

  // ---------------------------------------------------------------------------
  // A command line and the `prev` built-in

  /** A line the shell can evaluate: it fits the buffer, lexes, and has a token. */
  predicate LineDefined(line: string)
  {
    0 < |line| <= MaxLineChars && '\0' !in line && LexLine(line).Some? && |LexLine(line).value| > 0
  }

  /** The line's first token is the word prev (quoted or not). */
  predicate StartsWithPrev(line: string)
    requires LineDefined(line)
  {
    LexLine(line).value[0].text == "prev"
  }

  /**
   * The lines process_input handles without undefined behaviour; a stored
   * line that itself starts with prev would make it recurse forever.
   */
  predicate InputDefined(input: string, prev: string)
  {
    LineDefined(input) &&
    if StartsWithPrev(input) then
      prev == [] || (LineDefined(prev) && !StartsWithPrev(prev) && SequenceDefined(LexLine(prev).value))
    else SequenceDefined(LexLine(input).value)
  }

  /**
   * The line process_input ends up evaluating, the stored one for prev when
   * there is one, as tokenize leaves it in the input buffer: without its
   * trailing newline.
   */
  function EvaluatedLine(input: string, prev: string): string
    requires LineDefined(input)
  {
    StripNewline(if StartsWithPrev(input) && prev != [] then prev else input)
  }

  /** process_input: the prev built-in replays the stored line. */
  function InputPlan(input: string, prev: string): (p: Plan)
    requires InputDefined(input, prev)
    ensures |InterpreterEffects(p)| <= 1
    decreases if StartsWithPrev(input) then 1 else 0
  {
    if StartsWithPrev(input) then
      if prev == [] then Report(NoPreviousCommand) else Then(Echo(prev), InputPlan(prev, prev))
    else SequencePlan(LexLine(input).value)
  }

  // ---------------------------------------------------------------------------
  // Scripts run by the source built-in

  /**
   * A line read from a script as fgets returns it: a newline only at its
   * end; non-empty once that newline is dropped, and it lexes.
   */
  predicate ScriptLineDefined(line: string)
  {
    |line| <= MaxLineChars && '\0' !in line && '\n' !in StripNewline(line) &&
    |StripNewline(line)| > 0 && LexLine(StripNewline(line)).Some?
  }

  /** The argument vector exec_source builds from a script line. */
  function LineArgv(line: string): seq<string>
    requires ScriptLineDefined(line)
  {
    Texts(LexLine(StripNewline(line)).value)
  }

  /** The argument vectors of a script, one per line. */
  function ScriptArgvs(lines: seq<string>): seq<seq<string>>
    requires forall line :: line in lines ==> ScriptLineDefined(line)
  {
    seq(|lines|, k requires 0 <= k < |lines| => LineArgv(lines[k]))
  }

  /** exec_source: each argument vector in turn, straight to exec_cmd. */
  function SourceScript(argvs: seq<seq<string>>): (p: Plan)
    ensures InterpreterEffects(p) == []
  {
    if argvs == [] then Nothing
    else Then(SourceScript(argvs[..|argvs| - 1]), Exec(argvs[|argvs| - 1]))
  }

  /**
   * The scripts exec_source can run without undefined behaviour: each has a
   * line (with none, exec_source frees a token array it never filled) and
   * each line is one tokenize accepts.  `files` maps a path to the script's
   * lines as fgets reads them; a path it lacks cannot be opened.
   */
  predicate ScriptsDefined(files: map<string, seq<string>>)
  {
    forall path :: path in files ==> files[path] != [] && forall line :: line in files[path] ==> ScriptLineDefined(line)
  }

  /** What fopen gives for a path: the script's lines, or None for NULL. */
  function ScriptAt(files: map<string, seq<string>>, path: string): Option<seq<string>>
  {
    if path in files then Some(files[path]) else None
  }

  // ---------------------------------------------------------------------------
  // Reading a plan

  /** Every argument vector the plan hands to execvp, in order. */
  function Execs(p: Plan): seq<seq<string>>
  {
    match p
    case Exec(argv) => [argv]
    case Forked(body) => Execs(body)
    case Then(first, next) => Execs(first) + Execs(next)
    case Pipe(producer, consumer) => Execs(producer) + Execs(consumer)
    case Redirect(_, _, body) => Execs(body)
    case _ => []
  }

  /** The argument vectors, run together. */
  function Flatten(argvs: seq<seq<string>>): seq<string>
  {
    if argvs == [] then [] else argvs[0] + Flatten(argvs[1..])
  }

  /** The error messages the plan prints. */
  function Reports(p: Plan): seq<string>
  {
    match p
    case Report(message) => [message]
    case Forked(body) => Reports(body)
    case Then(first, next) => Reports(first) + Reports(next)
    case Pipe(producer, consumer) => Reports(producer) + Reports(consumer)
    case Redirect(_, _, body) => Reports(body)
    case _ => []
  }

  /**
   * The cd and source steps that run in the shell's own process, so that
   * their effect (working directory, line buffer) outlives the command:
   * nothing under Forked, and of a Pipe only the consumer, which runs in the
   * process holding the Pipe.
   */
  function InterpreterEffects(p: Plan): seq<Plan>
  {
    match p
    case Cd(_) => [p]
    case Source(_, _) => [p]
    case Then(first, next) => InterpreterEffects(first) + InterpreterEffects(next)
    case Pipe(_, consumer) => InterpreterEffects(consumer)
    case Redirect(_, _, body) => InterpreterEffects(body)
    case _ => []
  }

  /**
   * The line buffer (input_cli) after the shell-process steps `effects`,
   * starting from `cli` (None for NULL): exec_source copies every line of a
   * script it opens into the buffer in turn, so a source leaves the
   * script's last line there, without its newline; a cd, a script that
   * cannot be opened and a NULL buffer leave it as it was.
   */
  function BufferAfter(effects: seq<Plan>, files: map<string, seq<string>>, cli: Option<string>): (r: Option<string>)
    ensures r.Some? == cli.Some?
    decreases |effects|
  {
    if effects == [] then cli
    else
      var e := effects[0];
      var next :=
        if e.Source? && e.path in files && files[e.path] != [] && cli.Some?
        then Some(StripNewline(files[e.path][|files[e.path]| - 1]))
        else cli;
      BufferAfter(effects[1..], files, next)
  }

  /** Every Redirect node's body is a single command: no redirect inside another. */
  predicate RedirectsFlat(p: Plan)
  {
    match p
    case Forked(body) => RedirectsFlat(body)
    case Then(first, next) => RedirectsFlat(first) && RedirectsFlat(next)
    case Pipe(producer, consumer) => RedirectsFlat(producer) && RedirectsFlat(consumer)
    case Redirect(_, _, body) => body.Exec?
    case _ => true
  }

  // ---------------------------------------------------------------------------
  // Independent readings of the stages

  /** The pieces of ts between unquoted operators of `ops`. */
  function Split(ts: seq<Token>, ops: set<string>): (segs: seq<seq<Token>>)
    ensures |segs| > 0
    decreases |ts|
  {
    var k := FindOperator(ts, ops);
    if k == |ts| then [ts] else [ts[..k]] + Split(ts[k + 1..], ops)
  }

  /** Segments put back together with a separator token between neighbours. */
  function Join(segs: seq<seq<Token>>, sep: Token): seq<Token>
    requires |segs| > 0
    decreases |segs|
  {
    if |segs| == 1 then segs[0] else segs[0] + [sep] + Join(segs[1..], sep)
  }

  /** A segment with no unquoted operator of `ops`. */
  predicate Clean(seg: seq<Token>, ops: set<string>)
  {
    forall j :: 0 <= j < |seg| ==> !IsOperatorIn(seg[j], ops)
  }

  /** Segments run one after the other, each but the last in a child. */
  function RunSegments(segs: seq<seq<Token>>): Plan
    requires |segs| > 0 && forall k :: 0 <= k < |segs| ==> PipeDefined(segs[k])
    decreases |segs|
  {
    if |segs| == 1 then PipePlan(segs[0], true)
    else Then(Forked(PipePlan(segs[0], true)), RunSegments(segs[1..]))
  }

  /** Pipeline stages, each feeding the rest. */
  function RunStages(stages: seq<seq<Token>>): Plan
    requires |stages| > 0
    decreases |stages|
  {
    if |stages| == 1 then RedirectPlan(stages[0])
    else Forked(Pipe(RedirectPlan(stages[0]), RunStages(stages[1..])))
  }

  /**
   * The words of a command without its redirections, read one token at a
   * time: an unquoted `<`/`>` and the token after it are dropped.  None when
   * such an operator is the last token.
   */
  function Unredirected(ts: seq<Token>): Option<seq<Token>>
    decreases |ts|
  {
    if ts == [] then Some([])
    else if IsOperatorIn(ts[0], RedirectOps) then (if |ts| == 1 then None else Unredirected(ts[2..]))
    else Cons(ts[0], Unredirected(ts[1..]))
  }
}
