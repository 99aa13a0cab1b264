# mini-shell evaluator in Dafny

This project models the core of a small Unix shell written in C. The model covers two parts.

- **The lexer** (`tokenize_lib.c`) turns a command line into a list of tokens. Each token carries its text and a flag that says whether it came from inside double quotes.
- **The evaluator** (`shell.c`) splits the token list at unquoted operators:
  - first at `;` (`process_sequence`);
  - then at `|` (`process_pipes`, which handles the built-ins `cd`, `source` and `help` first);
  - then at `<` and `>` (`process_redirects`);
  - and finally passes what is left to `execvp` (`exec_cmd`).

  On top of that come the `prev` built-in (`process_input`) and script execution (`exec_source`).

The project has four modules.

- `TokenizeLib` (`tokenize.dfy`):
  - `Lex` is a reference definition of the token list. It returns `None` for a line with an unclosed quote.
  - `Render` / `Concat` turn tokens back into text, and lemmas prove that this round-trips through `Lex`.
  - `Tokenize` is the cursor loop of `tokenize` over the two arrays `token_list` and `quoted_tokens`. It is proved to store exactly the tokens `Lex` gives, followed by the NULL sentinel, and to set only the flags of quoted tokens.
- `ShellPlan` (`plan.dfy`): the evaluator as functions from a token list to a `Plan`. A plan is a tree whose nodes stand for what the C code does with the operating system: `Exec` (fork and execvp), `Forked` (a child the caller waits for), `Then`, `Pipe`, `Redirect`, `Cd`, `Source`, `Help`, `Echo` and `Report` (an error message). Nothing is simulated: the plan records what the shell would do and in what order.
- `ShellLaws` (`plan_laws.dfy`): the properties of those plans. They are stated against independent readings of a line, such as `Split` (the segments between operators), `Unredirected` (a command's words without its redirections) and `InterpreterEffects` (what survives in the shell's own process).
- `Shell` (`shell.dfy`): the C evaluator functions as methods over the token arrays.
  - An offset `lo` plays the part of the suffix addresses `&tokens[tok_idx]`, and `None` plays NULL.
  - Each method is proved to return the plan `ShellPlan` computes for the list the arrays hold.
  - The line buffer `input_cli` goes down from `ProcessInput` through `ProcessSequence` and `ProcessPipes` to `ExecSource`, which overwrites it with each script line; each method returns the buffer it leaves.
  - `tokens[tok_idx] = NULL` happens in a forked child in C, so it writes into the child's copy of the memory. The model says the same through `ForkCopy`: the child gets a fresh copy of the array and the write goes there.

Built-in names (`cd`, `source`, `help`, `prev`) are compared by text alone, so a quoted `"cd"` is still `cd`. Operators count only when their quote flag is clear.

Where the behaviour a user of the shell would expect and what the code does disagree, the model follows the code:
- **Redirections do not accumulate.** In `cmd < in > out`, only `cmd < in` runs with a redirection. After it, the tokens after `in` are evaluated again as a command of their own: `> out` alone, which runs `exec_cmd` with an empty argument vector under `> out`, and then `exec_cmd` on the empty rest.
- **`source` does no operator handling.** Each script line goes straight to `exec_cmd`, so `;`, `|`, `<`, `>` and the built-in names in a script are ordinary arguments.
- **An unclosed quote is undefined behaviour.** A natural reading is a token running to the end of the line. In the code, the cursor then steps past the terminating NUL (`tokenize_lib.c:69`). The model makes a closed quote a precondition.
- **An empty argument vector is modelled, not excluded.** `exec_cmd` with `argv[0] == NULL` is what the code does after a redirection whose file name ends the line (`cmd > out`), and for a redirection or a pipe stage with nothing before it (`> out cmd`, the middle of `a | | b`). It is modelled as `Exec([])` rather than excluded by a precondition.

## Model

| member | source | states |
|---|---|---|
| TokenizeLib.IsSpecial | tokenize_lib.c:17-25 | the result is 0 or 1, and it is 1 exactly for `(`, `)`, `<`, `>`, `;`, `\|` and tab |
| TokenizeLib.SpecialCharacters | tokenize_lib.c:17-25 | space and `"` are not special and tab is; the special characters are exactly those seven |
| TokenizeLib.QuoteLen | tokenize_lib.c:59-61 | the quoted run has no `"` in it and stops at a `"` or at the end of the line |
| TokenizeLib.WordLen | tokenize_lib.c:84-86 | the word run holds only characters that are neither space nor special, and is maximal |
| TokenizeLib.Lex | tokenize_lib.c:47-94 | a line that lexes yields no more tokens than it has characters |
| TokenizeLib.StripNewlineShape | tokenize_lib.c:43-45 | dropping the trailing newline removes at most one character, a `\n`, from the end, and leaves a prefix of the line |
| TokenizeLib.LexWellFormed | tokenize_lib.c:47-94 | every token is well formed: a quoted token has no `"`; an unquoted one is a single special character or a non-empty word run |
| TokenizeLib.NoSpaceOutsideQuotes | tokenize_lib.c:47-94 | no unquoted token contains a space |
| TokenizeLib.LexSkipsSpace | tokenize_lib.c:50-52 | a space at the cursor is skipped and adds no token |
| TokenizeLib.LexQuotedAt | tokenize_lib.c:54-70 | a `"` opens a quoted token holding exactly the characters up to the next `"` (possibly none); with no closing `"` the line does not lex |
| TokenizeLib.LexSpecialAt | tokenize_lib.c:72-78 | a special character is a one-character unquoted token whatever surrounds it |
| TokenizeLib.LexWordAt | tokenize_lib.c:80-93 | any other character starts a non-empty unquoted word that runs to the next space or special character; a `"` inside a word is kept |
| TokenizeLib.QuoteLenAt | tokenize_lib.c:59-61 | a run with no `"` that ends at a `"` or at the end of the line is QuoteLen's |
| TokenizeLib.WordLenAt | tokenize_lib.c:84-86 | a run of word characters that ends at a space, a special character or the end of the line is WordLen's |
| TokenizeLib.LexRenderToken | tokenize_lib.c:47-94 | lexing a token's own rendering, followed by text that cannot extend it, gives that token back first |
| TokenizeLib.RenderLexRoundTrip | tokenize_lib.c:40-99 | for well-formed tokens, writing them out separated by spaces (quoted ones in quotes) and lexing gives them back |
| TokenizeLib.GluedLexRoundTrip | tokenize_lib.c:72-93 | operators need no spaces: well-formed tokens written with no spaces lex back when no word is directly followed by a word or by a quoted token |
| TokenizeLib.LexRenderLex | tokenize_lib.c:40-99 | re-lexing the rendering of a lexed line gives the same tokens |
| TokenizeLib.ScanQuoted | tokenize_lib.c:59-61 | the inner loop stops at start + QuoteLen |
| TokenizeLib.ScanWord | tokenize_lib.c:84-86 | the inner loop stops at start + WordLen |
| TokenizeLib.ScanNext | tokenize_lib.c:50-93 | one pass of the outer loop moves the cursor forward, stores the next lexed token's text (and for a quoted token sets its flag) in cell `token_index`, or adds nothing for a space; no other cell changes |
| TokenizeLib.StoreToken | tokenize_lib.c:64-67 | stores the text in its cell and sets the flag only for a quoted token; nothing else changes |
| TokenizeLib.Tokenize | tokenize_lib.c:40-99 | returns the number of tokens `Lex` yields; cells 0..count-1 hold their texts in order and cell count is NULL; quoted tokens get flag 1; every other flag and every cell after the NULL keep their old value |
| TokenizeLib.ExampleOptions | tokenize_lib.c:40-99 | `ls -l` lexes to `ls`, `-l`, both unquoted |
| TokenizeLib.ExampleQuotedSpace | tokenize_lib.c:54-70 | `echo "a b" c` lexes to `echo`, `a b` (quoted), `c` |
| TokenizeLib.ExampleQuotedOperator | tokenize_lib.c:54-70 | `echo "a;b"` lexes to `echo` and one quoted token `a;b` |
| TokenizeLib.ExampleOperatorsNeedNoSpaces | tokenize_lib.c:72-93 | `ls\|wc>out` lexes to five tokens, with `\|` and `>` as tokens of their own |
| ShellPlan.FindOperator | shell.c:141-144 | the index found is within the list, and when it is not the end it holds an unquoted operator of the kind searched for |
| ShellPlan.Texts | shell.c:191 | the argument vector has one entry per token, each that token's text |
| ShellPlan.LastSegment | shell.c:301-327 | on a line that evaluates, the part after the last unquoted `;` is a list the pipe stage accepts |
| ShellPlan.RedirectPlan | shell.c:138-192 | the reference definition of `process_redirects` that `Shell.ProcessRedirects` is proved to return and the `ShellLaws` redirect lemmas describe; its contract: a command with redirections runs entirely in children and leaves no cd or source step in the shell's own process |
| ShellPlan.PipePlan | shell.c:206-289 | the reference definition of `process_pipes` that `Shell.ProcessPipes` is proved to return and `PipeByStages` and the built-in lemmas describe; its contract: a list not starting with a built-in name leaves no step in the shell's own process, and any list leaves at most one |
| ShellPlan.SequencePlan | shell.c:301-327 | the reference definition of `process_sequence` that `Shell.ProcessSequence` is proved to return and `SequenceBySegments` describes; its contract: a line takes at most one step in the shell's own process |
| ShellPlan.InputPlan | shell.c:338-358 | the reference definition of `process_input` that `Shell.ProcessInput` is proved to return and the `prev` lemmas describe; its contract: at most one step in the shell's own process, replay included |
| ShellPlan.SourceScript | shell.c:101-112 | the reference definition of `exec_source`'s loop that `Shell.ExecSource` is proved to return and `SourceRunsEachLine` describes; its contract: a script's commands leave no cd or source step in the shell's own process |
| ShellPlan.BufferAfter | shell.c:81-115 | the line buffer after the shell-process steps of a plan: each `source` of a script that opens leaves that script's last line, without its newline; a NULL buffer stays NULL and a non-NULL one stays non-NULL |
| ShellLaws.FindOperatorFirst | shell.c:304-325 | no unquoted operator comes before the one the scan stops at |
| ShellLaws.SplitJoin | shell.c:301-327 | splitting at an operator loses no token: joining the segments with the operator gives the list back |
| ShellLaws.SplitClean | shell.c:301-327 | no segment of a split contains the operator |
| ShellLaws.JoinSplit | shell.c:301-327 | splitting operator-free segments joined with the operator gives those segments back |
| ShellLaws.SequenceBySegments | shell.c:301-327 | a line evaluates exactly when each `;` segment does; its plan runs the segments left to right, each waited for, all but the last in a child |
| ShellLaws.OnlyLastSegmentPersists | shell.c:311-326 | the cd and source steps that act on the shell's own process are exactly those of the last `;` segment |
| ShellLaws.LastSegmentIsLastPiece | shell.c:301-327 | the last segment is the last piece of the split at `;` |
| ShellLaws.CdBeforeSemicolonDoesNotPersist | shell.c:311-314 | in `cd x ; ls`, the cd runs in a child and changes nothing in the shell |
| ShellLaws.CdAfterSemicolonPersists | shell.c:326 | in `ls ; cd x`, the cd runs in the shell's own process |
| ShellLaws.BufferKeptWithoutSource | shell.c:89-115 | steps with no `source` among them leave the line buffer as it was |
| ShellLaws.LineBuffer | shell.c:216-220 | after a command line, the buffer holds the last line (without its newline) of the script that a `source` in the last `;` segment opens, and the line itself otherwise; a `source` in an earlier segment runs in a child and leaves the shell's buffer alone |
| ShellLaws.ExampleSourceSetsBuffer | shell.c:110-111 | `source s`, where s holds the line `ls`, leaves `ls` in the buffer, so the next `prev` replays `ls` |
| ShellLaws.ExampleForkedSourceKeepsBuffer | shell.c:311-314 | in `source s ; ls`, the script runs in a child and the buffer keeps `source s ; ls` |
| ShellLaws.PipeByStages | shell.c:226-288 | when no stage starts with a built-in name, the list is accepted, and `a \| b \| c` nests to the right: each stage feeds the pipeline of the stages after it |
| ShellLaws.ExamplePipeline | shell.c:226-288 | `a \| b \| c` is a child piping `a` into a child piping `b` into `c` |
| ShellLaws.BuiltinTakesWholeSegment | shell.c:209-220 | `cd`/`source` with an argument is that built-in alone, whatever follows (pipes included), and runs no program of its own; the commands of a sourced script are `ExecSource`'s plan, not part of this one |
| ShellLaws.BuiltinWithoutArgument | shell.c:209-224 | `cd` and `source` with no argument do nothing; `help` ignores what follows it |
| ShellLaws.QuotedBuiltinStillBuiltin | shell.c:209-214 | a quoted `"cd"` is still the cd built-in |
| ShellLaws.NoRedirectIsOneCommand | shell.c:141-191 | a list with no unquoted `<`/`>` is one `execvp` of its texts |
| ShellLaws.RedirectsDoNotAccumulate | shell.c:177-185 | the body of every redirection is a single command, never a further redirection |
| ShellLaws.ExampleRedirectsDoNotAccumulate | shell.c:138-192 | `cmd < in > out` runs `cmd` reading `in`, then an empty command writing `out`, then an empty command |
| ShellLaws.MissingRedirectFileRunsNothing | shell.c:145-148 | a `<`/`>` that is the last token reports "No redirect file specified" and runs nothing |
| ShellLaws.RedirectPlanShape | shell.c:150-186 | at the first redirection, the tokens before it run as one command in a child with the redirection, and the tokens after the file name follow as the rest |
| ShellLaws.RedirectReportsMissingFile | shell.c:145-148 | the redirect stage reports a missing file exactly when reading the list pairwise leaves an operator with nothing after it |
| ShellLaws.RedirectKeepsWords | shell.c:138-192 | the commands the redirect stage runs, taken together, are exactly the tokens other than the redirect operators and their file names, in order |
| ShellLaws.QuotedOperatorsInert | shell.c:138-327 | a line whose `;`, `\|`, `<` and `>` are all quoted is one command of all its texts |
| ShellLaws.ExampleQuotedSemicolon | shell.c:301-327 | `echo "a;b"` runs echo with the single argument `a;b` |
| ShellLaws.ExampleNewlineLeavesBuffer | shell.c:341 | for the line `ls\n`, the buffer `process_input` leaves holds `ls`: `tokenize` drops the newline in place (tokenize_lib.c:43-45) |
| ShellLaws.PrevWithoutHistory | shell.c:349-351 | `prev` with nothing stored reports "No previous commands run…" and runs nothing |
| ShellLaws.PrevReplaysStoredLine | shell.c:343-348 | `prev` with a stored line echoes it and evaluates it as if typed; the rest of the `prev` line plays no part |
| ShellLaws.SourceRunsEachLine | shell.c:101-112 | a script's argument vectors reach `execvp` unchanged and in order; nothing reports an error, and nothing changes the shell's own process |
| Shell.ArgvFromLists | shell.c:47-66 | the argument vector `execvp` reads from the array, up to the NULL, is the list's texts |
| Shell.ForkCopy | shell.c:150-155 | the child starts with an array equal to its parent's |
| Shell.ProcessRedirects | shell.c:138-192 | over the arrays, returns the redirect stage's plan for the list they hold; `<` reads from the file and any other redirect operator writes to it (`DirectionOf`, shell.c:157) |
| Shell.RedirectAt | shell.c:150-186 | the branch for a redirection with a file name returns the redirect stage's plan |
| Shell.ProcessPipes | shell.c:206-289 | over the arrays, returns the pipe stage's plan, built-ins included; a `source` with a non-NULL line buffer runs the script through `ExecSource`, and the buffer returned is the one the plan's shell-process steps leave (`BufferAfter`) |
| Shell.PipeAt | shell.c:227-284 | the branch for an unquoted `\|` returns the pipe stage's plan, whatever the line buffer |
| Shell.ProcessSequence | shell.c:301-327 | over the arrays, returns the sequence stage's plan and the line buffer its shell-process steps leave |
| Shell.SequenceAt | shell.c:305-321 | the branch for an unquoted `;` returns the sequence stage's plan; the child's copy of the buffer is dropped, and the buffer returned is the one the rest of the line leaves |
| Shell.TokenizeLine | shell.c:339-341 | `process_input`'s zero-filled arrays, once `tokenize` has run, hold the line's tokens and their quote flags, the first token is `prev` exactly when the line starts with it, and the buffer is left without its trailing newline |
| Shell.ProcessInput | shell.c:338-358 | tokenizes the line and returns the plan for it, `prev` included; the input buffer afterwards is the line evaluated (the stored line when `prev` replayed it) without its trailing newline, which `tokenize` drops in place (`EvaluatedLine`), as overwritten by a `source` that runs in the shell's own process (`BufferAfter`, described by `LineBuffer`) |
| Shell.SourceLine | shell.c:101-108 | one pass of the script loop returns the line without its newline and extends the plan by that line's argument vector |
| Shell.ExecSource | shell.c:89-115 | a missing file reports "source: path: No such file"; otherwise the plan runs each line's argument vector in order, and the line buffer ends holding the last line without its newline |

## Left out

- Operating-system calls are plan nodes and are not simulated: `fork`, `wait`, `pipe`, `dup`, `close`, `open`, `execvp`, `chdir` and `fopen`/`fgets`. So are their failures: a failed fork in the redirect, pipe and sequence stages, or a failed pipe, ends the process, a failed fork in `exec_cmd` prints "Fork failed" and returns, a failed `open` or `close` ends the child, and `cd` or a program that cannot be found prints a message. The same goes for the bytes that flow through pipes and the producer/consumer concurrency.
- The kernel's reuse of descriptor slots, which `open(...) != 0` / `!= 1` and `assert(dup(...) == k)` rely on.
- Printed text other than the error messages carried by `Report` and `Echo`. This includes the help text (`exec_help`), the "command not found" message and the prompt.
- `read_input` and the interactive loop `run_shell`: reading a line, `exit`, skipping empty lines, and copying the input buffer into the stored line at the top of each iteration. `ProcessInput` returns the input buffer it leaves behind, which that copy would use.
- The file system is a parameter: `files` maps the path of each script `source` can open to its lines as `fgets` reads them.
- Strings are sequences of characters, not C bytes: the 255 limit counts characters, and there is no encoding.
- `print_tokens`, `free_token_mem` and the allocation of token texts. The stdin/stdout driver `tokenize.c` is not part of this model.
- Lines longer than the buffer, which `fgets` cuts into pieces. The model takes lines of at most 255 characters.
- `Source(path, hasBuffer)` in a plan does not expand into the script's commands. `ExecSource` computes the script's own plan; `ProcessPipes` keeps only the line buffer it leaves.
- `memset(input_cli, 0, sizeof(input_cli))` clears only as many bytes as an address takes. It makes no difference, since `strncpy` then copies the whole line and pads with NULs.
- TokenizeLib.Tokenize: requires a non-empty line without NUL and with closed quotes. For an empty string, `strlen(str_in) - 1` indexes before the buffer; with an unclosed quote, the cursor steps past the terminator. Both are undefined behaviour.
- Shell.ProcessInput: requires a line with at least one token whose every `;` segment is non-empty and in which no unquoted `|` ends the line or its segment. Otherwise `strcmp` is called on a NULL `tokens[0]` (for example `ls ;` or `a |`). An empty stage between two `|`, as in `a | | b`, is allowed and runs `Exec([])`.
- Shell.ProcessInput: also requires that the stored line does not itself start with `prev`. If it did, `process_input` would recurse without end. This happens when `prev` is typed with nothing stored and then typed again.
- Shell.ExecSource: requires each script line to be non-empty once its newline is dropped, because `tokenize` on an empty string is undefined. It takes a line to hold a newline only at its end, as `fgets` returns it. It also requires the line buffer to be non-NULL when the script opens; `source` on the right of a pipe passes NULL.
- Shell.ExecSource: requires a script that opens to have at least one line. With none, the loop never runs and `free_token_mem` walks `tokens`, which was never initialized (`shell.c:91`, `shell.c:114`); that is undefined behaviour in the shell's own process.
- Shell.ProcessPipes: `source` as the consumer of a pipe gets a NULL line buffer, and `exec_source` would then copy the script's first line through NULL, undefined behaviour in that child. The model does not call `ExecSource` there: it records `Source(path, false)` and keeps the buffer NULL. The child's buffer is lost with the child either way.
- ShellLaws.BuiltinTakesWholeSegment: its "runs no program" (`Execs == []`) covers `source` only because a `Source` node does not expand; the script's lines do run through `exec_cmd` (shell.c:217, shell.c:106-108), and `ExecSource` and `SourceRunsEachLine` state what they run.
- TokenizeLib.Tokenize: takes the line as a value and does not write the newline it drops back into the caller's buffer. `Shell.TokenizeLine` returns that buffer for `process_input`.
- TokenizeLib.ExampleOperatorsNeedNoSpaces: shows `ls|wc>out` rather than the nine-token `a;b|c<d>e`. The general statement, that operators need no spaces, is GluedLexRoundTrip.
