# shellspec, modelled in Dafny

shellspec runs spec files written in a small line-oriented language.

- A `>name` line opens a test case and `>@name` opens a named snippet.
- Each stanza holds command lines that start with a two-character prefix:
  - `$.` / `$!` run a program, expecting success or failure;
  - `?.` / `?!` assert something about the captured output, a file or two values;
  - `:.` performs an action: creating a file, storing captured output in an `@variable`, setting an environment variable, or calling a snippet with `:.@ name`;
  - `#` lines are comments.
- A command line may be followed by:
  - `$<` / `$>` lines, which give the expect/sendline script of an interactive program;
  - `..` lines, which give multi-line content.

This project models the interpreter in `shellspec.py` in three layers. Each stateful class of the source (`Tokenizer`, `Reader`, `Parser`, `TestSuite`, `TestRunner`) is a Dafny class whose methods are proved to compute a pure specification function, and the properties are proved about those functions.

- **Tokenizing** (`tokenizing.dfy`, with `quoting.dfy`). The quote-aware tokenizer is a cursor class, `Tokenizer`, over one line. It is specified by `LexFrom`, the token sequence read from an index on. `Quoting` writes any list of tokens back as a line: it quotes and escapes where needed. It then proves that tokenizing that line gives the list back.
- **Parsing** (`commands.dfy`, `parsing.dfy`). These model the command-line head (prefix, negation, ` # ` comment, tokens) and `Command.to_str` with its round trip. They model the `Reader` line cursor, the `Parser` and the `TestSuite`. Over the whole file, the specification is `ParseFrom`, which gives either the suite or the first error with its 1-based line number.
- **Running** (`engine.dfy`, `runner.dfy`). `Engine` states what `TestRunner` decides:
  - test selection;
  - per-case reset;
  - a stanza stops at its first failure;
  - command dispatch and every assertion;
  - the variable store and the environment overlay;
  - snippet calls;
  - executable resolution and the shell pass/fail rule.

  The outside world is a `Config`:
  - programs are oracle functions from an `Invocation` to an outcome;
  - files are a map from path to text and mode;
  - the random directory suffix is a function of the case number.

  `Runner.TestRunner` is the mutable runner. Each of its methods is proved to leave the state, and return the verdict, that `Engine` gives.

`text.dfy` holds the string helpers the source takes from Python: `strip`, `startswith`, `in`, `lower`, `isdigit`, `int(x, 8)`, `os.path.join` and `"\n".join`. Whitespace is Python's `str.isspace` on ASCII: characters 9-13 and 28-32.

## Behaviour followed as the code has it

The model follows the code in each case. A lemma exhibits each point.

- `run_test_case` announces a reset "for test case isolation" (shellspec.py:615), but it clears only the variables and the environment overlay (shellspec.py:616-617). The captured stdout and stderr carry over from the previous case. `Engine.LastOutputLeaks` shows a case whose verdict depends on the previous case's output.
- Negation does not always flip an assertion's verdict. In `_assert_file`, the negated branch (shellspec.py:888-904) passes for a missing file, and for an existing file it only negates the text checks that are given. So `?.file p` and `?!file p` both pass when `p` exists and no text check is given (`Engine.FileNegationAsymmetry`). A stream or comparison check missing its arguments, and an assertion on an unknown target, fail in both polarities (`Engine.StreamNegation`, `Engine.ComparisonNegation`, `Engine.UnknownTargetFails`).

## Model

| member | source | states |
|---|---|---|
| Tokenizing.SpaceEnd | shellspec.py:161-164 | skipping whitespace stops at the first non-whitespace character or at the end, never before the start |
| Tokenizing.WordFrom | shellspec.py:166-171 | an unquoted run ends within the line; its text has exactly the length of the span read; it is non-empty when it starts on a non-space |
| Tokenizing.WordFromSlice | shellspec.py:166-171 | the unquoted run is the slice `line[start:pos]`; it holds no whitespace, and it stops only at whitespace or the end |
| Tokenizing.QuotedFrom | shellspec.py:173-201 | reading a quoted token ends within the line and, when any character is left, consumes at least one, so the loop terminates |
| Tokenizing.QuotedUnterminated | shellspec.py:177-201 | a quote never closed and without backslashes yields the rest of the line, with no error |
| Tokenizing.LexWordsShaped | shellspec.py:203-225 | every unquoted token is non-empty and contains no whitespace |
| Tokenizing.LexSkipsSpaces | shellspec.py:206-209 | leading whitespace does not change the tokens |
| Tokenizing.LexQuotedAt | shellspec.py:211-215 | proof step (one unfolding of LexFrom): at a quote character the next token is the quoted read, and tokenizing continues after it |
| Tokenizing.LexWordAt | shellspec.py:216-219 | proof step (one unfolding of LexFrom): at any other non-space character the next token is the unquoted run, and tokenizing continues after it |
| Tokenizing.Tokenizer.constructor | shellspec.py:147-149 | a tokenizer starts at position 0 of its line |
| Tokenizing.Tokenizer.Peek | shellspec.py:155-159 | None exactly at the end of the line, otherwise the character at the position |
| Tokenizing.Tokenizer.SkipWhitespace | shellspec.py:161-164 | moves the position to SpaceEnd |
| Tokenizing.Tokenizer.ConsumeWord | shellspec.py:166-171 | returns `line[start:pos]` and moves to the end of the unquoted run |
| Tokenizing.Tokenizer.ConsumeQuoted | shellspec.py:173-201 | returns the unescaped text that QuotedFrom reads after the opening quote, and moves past the closing quote or to the end |
| Tokenizing.Tokenizer.Tokenize | shellspec.py:203-225 | consumes the whole line and returns the texts of LexFrom, in order |
| Quoting.EscapeRead | shellspec.py:173-201 | an escaped text followed by the quote is read back by consume_quoted as exactly that text, ending just past the quote |
| Quoting.WordRead | shellspec.py:166-171 | a whitespace-free word followed by whitespace or the end is read back whole by consume_word |
| Quoting.RenderReads | shellspec.py:203-225 | a rendered token, followed by whitespace or the end, is read back as one token with the original text |
| Quoting.LexReads | shellspec.py:203-225 | the tokenizer yields the read-back token and continues where it ended |
| Quoting.RenderLaid | shellspec.py:203-225 | a line holding rendered tokens separated by single spaces has each token in its place |
| Quoting.LexLaid | shellspec.py:203-225 | such a line tokenizes to exactly the read-back tokens, in order |
| Quoting.RenderRoundTrip | shellspec.py:203-225 | tokenizing the rendering of any token list gives that list back |
| Quoting.PlainRoundTrip | shellspec.py:203-225 | tokens that are non-empty, whitespace-free and do not start with a quote survive `" ".join` followed by tokenize unchanged |
| Quoting.TextsReadBacks | shellspec.py:211-219 | the read-back tokens carry the original texts |
| Quoting.RenderAllPlain | shellspec.py:262 | plain tokens need no quoting: their rendering is the `" ".join` of to_str |
| Commands.ParseHead | shellspec.py:384-431 | an error names the command's 1-based line; a parsed head carries that line and has no content and no interactions yet |
| Commands.SplitCommentFacts | shellspec.py:401-405 | the line is cut at the first ` # `: the body before it holds no marker, and the comment is the rest after the marker, trimmed; a line without the marker is all body with no comment |
| Commands.HeadForms | shellspec.py:407-431 | a non-comment line fails with InvalidCommand when its body is shorter than 2, with UnknownPrefix when it starts with none of `$ ? :`, with EmptyCommand when nothing follows the prefix, and otherwise gives the kind, `negated` iff the second character is `!`, the comment, and the token and args of the trimmed rest |
| Commands.ReadCommandLine | shellspec.py:402-431 | a line without ` # ` whose prefix has a known kind gives that kind, `negated` iff the second character is `!`, the first token of `line[2:].strip()` as token and the rest as args |
| Commands.PrefixRead | shellspec.py:248-260 | the prefix to_str writes is two whitespace-free characters: the first selects the kind, and the second is `!` exactly for a negated Shell or Assertion |
| Commands.NoMarkerInJoin | shellspec.py:402-405 | a `" ".join` of non-empty, whitespace-free words other than `#` contains no ` # ` comment marker |
| Commands.WrittenLine | shellspec.py:248-262 | re-parsing to_str of a non-comment command with writable words gives its kind, token and args, and its negation unless it is a DslAction |
| Commands.ToStrRoundTrip | shellspec.py:248-262 | for Shell and Assertion commands, re-parsing to_str restores kind, negated, token and args |
| Commands.DslActionLosesNegation | shellspec.py:257-262 | a DslAction always renders as `:.`, so its negation is lost on re-parsing |
| Commands.CommentRoundTrip | shellspec.py:250-251 | a comment renders as `# text` and re-parses to the same trimmed comment |
| Parsing.InteractionsEnd | shellspec.py:433-454 | the interaction run stops within the lines, at the first line that is not `$<`/`$>` |
| Parsing.Interactions | shellspec.py:433-454 | no more interactions are recorded than lines consumed |
| Parsing.InteractionsStep | shellspec.py:439-450 | proof step (one unfolding of Interactions): a `$<`/`$>` line with empty text is consumed but not recorded; otherwise its interaction comes first |
| Parsing.InteractionTexts | shellspec.py:448-450 | every recorded interaction has non-empty text |
| Parsing.InteractionsInOrder | shellspec.py:433-454 | when every interaction line has text, the i-th line gives the i-th interaction (expect for `$<`, sendline for `$>`, text `line[3:]`), in source order |
| Parsing.InteractionRun | shellspec.py:437-454 | every line the interaction loop consumes is a `$<`/`$>` line |
| Parsing.ContentEnd | shellspec.py:456-467 | the content run stops within the lines, at the first line not starting with `..` |
| Parsing.Content | shellspec.py:456-467 | one content line is recorded per `..` line consumed |
| Parsing.ContentLines | shellspec.py:456-467 | the k-th content entry is `line[3:]` of the k-th `..` line, in source order |
| Parsing.CommandAt | shellspec.py:384-478 | a parsed command starts at its 1-based line and consumes at least that line; an error names that line and is never UnknownLine/UnknownCommand |
| Parsing.CommandAtComment | shellspec.py:389-399 | a `#` line is a Comment whose text is `line[1:]` trimmed; it consumes only that line and takes no trailing lines |
| Parsing.CommandAtHead | shellspec.py:433-478 | proof step (one unfolding of CommandAt): after the head, only a Shell command takes `$<`/`$>` lines, and then every command takes the `..` lines that follow |
| Parsing.OnlyShellInteracts | shellspec.py:435 | a non-Shell command followed by a `$<` line takes no interactions and stops before that line |
| Parsing.CommandsFrom | shellspec.py:354-382 | a stanza's commands end at a `>` line or at the end of input; an error names a line inside the stanza |
| Parsing.CommandsStep | shellspec.py:374-376 | proof step (one unfolding of CommandsFrom): a command line that starts with `$ ? : #` is parsed as one command, followed by the rest of the stanza; its error ends the stanza |
| Parsing.CommandsNoHeaders | shellspec.py:354-382 | no line a stanza consumes is a `>` header |
| Parsing.CommandErrorLine | shellspec.py:354-382 | a stanza's UnknownCommand error names a non-blank line that does not start with `>` or with `$ ? : #`; a stanza never reports UnknownLine |
| Parsing.ParseFrom | shellspec.py:311-334 | a failed parse names a line at or after where it started |
| Parsing.ParseErrorLine | shellspec.py:311-334 | an UnknownLine error names a non-blank top-level line that starts with neither `>` nor `#`, and an UnknownCommand error a line that is not a command |
| Parsing.ParseHeaders | shellspec.py:311-352 | the test cases are the `>name` headers in file order, each with its trimmed name and line; the snippet names are exactly the trimmed `>@name` headers |
| Parsing.ParseSnippetLines | shellspec.py:336-352 | a snippet name maps to the stanza of its last `>@name` header, holding the commands read after that header, because a later definition overwrites an earlier one (shellspec.py:489-490); a name with no header keeps what the suite had |
| Parsing.LastSnippet | shellspec.py:339-344 | the line it finds is a `>@` header, after the start, whose trimmed name is the one asked for, and no later line is such a header, so the last definition wins; None means no line from the start on is such a header |
| Parsing.ParseCaseBodies | shellspec.py:345-352 | every test case a parse adds holds exactly the commands read after its header |
| Parsing.SuiteBodies | shellspec.py:311-352 | every test case and every snippet of a parsed file holds exactly the commands read after its header |
| Parsing.SuiteHeaders | shellspec.py:311-352 | a whole parse yields the test cases and snippet names of the file's headers |
| Parsing.Reader.constructor | shellspec.py:281-283 | a reader starts at line 0 |
| Parsing.Reader.Consume | shellspec.py:291-297 | returns the current line and advances by one |
| Parsing.TestSuite.constructor | shellspec.py:482-484 | a suite starts with no test cases and no snippets |
| Parsing.TestSuite.AddTestCase | shellspec.py:486-487 | appends the case and leaves the snippets alone |
| Parsing.TestSuite.AddSnippet | shellspec.py:489-490 | registers or overwrites the snippet under its name; every other name resolves as before |
| Parsing.TestSuite.ResolveSnippet | shellspec.py:495-496 | the stanza registered under the name, or None exactly when there is none |
| Parsing.Parser.constructor | shellspec.py:307-309 | a parser starts with a fresh reader at line 0 and an empty suite |
| Parsing.Parser.Parse | shellspec.py:311-334 | the parser's loop computes ParseFrom: the suite on success, or the first error |
| Parsing.Parser.ParseStanza | shellspec.py:336-352 | consumes the header and the stanza's commands, then adds a test case or snippet under the trimmed name, or reports the stanza's error |
| Parsing.Parser.ParseCommandsUntilNextStanza | shellspec.py:354-382 | the stanza loop computes CommandsFrom and stops at the next header |
| Parsing.Parser.ParseCommand | shellspec.py:384-478 | computes CommandAt and leaves the reader just past the command's trailing lines |
| Parsing.Parser.ReadInteractions | shellspec.py:433-454 | the interaction loop computes Interactions and stops at InteractionsEnd |
| Parsing.Parser.ReadContent | shellspec.py:456-467 | the content loop computes Content and stops at ContentEnd |
| Engine.Sanitize | shellspec.py:46-48 | sanitizing keeps the name's length |
| Engine.SanitizeChars | shellspec.py:46-48 | letters and digits stay in place, and every other character becomes `_` |
| Engine.SanitizeIdempotent | shellspec.py:46-48 | a sanitized name is left unchanged by sanitizing again |
| Engine.TestDirName | shellspec.py:134-141 | a case's directory name is the sanitized name, `-`, then the suffix |
| Engine.ShouldRunIgnoresCase | shellspec.py:537-545 | lower-casing the filter or the name does not change which tests run |
| Engine.SelectedIncreasing | shellspec.py:549-552 | the selected case numbers are 1-based, in range and strictly increasing |
| Engine.SelectedAccepted | shellspec.py:549-552 | every selected case is accepted by the filter |
| Engine.SelectedComplete | shellspec.py:549-552 | every case the filter accepts is selected; with SelectedAccepted, a case is selected exactly when `should_run_test` holds for it |
| Engine.SelectByNumber | shellspec.py:540-543 | an all-digit filter selects exactly the case with that number, or none |
| Engine.SelectAll | shellspec.py:539-540 | a missing or empty filter selects every case, in order |
| Engine.Resolve | shellspec.py:954-970 | `@name` resolves to the stored value when defined; an undefined name or any other text stays literal |
| Engine.ResolveAll | shellspec.py:677-678 | every argument is resolved on its own, in order |
| Engine.StoreVariable | shellspec.py:1034-1052 | stores only when the first argument is `@` followed by a non-empty name; the variable gets the trimmed text and no other variable changes |
| Engine.StoreThenResolve | shellspec.py:1034-1052 | a stored variable resolves to the trimmed captured text |
| Engine.SetEnv | shellspec.py:1017-1032 | needs two arguments; sets the name to the resolved value and changes no other entry of the overlay |
| Engine.EnvReachesShell | shellspec.py:682-684 | a variable set with `:.env` reaches later shell commands, overriding the process environment |
| Engine.CreateFile | shellspec.py:993-1015 | needs a path and, when given, an octal mode; writes the joined content with that mode, 0o644 by default, and touches no other file |
| Engine.CreatedFilePasses | shellspec.py:853-904 | a file created with `:.file` passes `?.file` with the same path and content (reads never fail in the model) |
| Engine.FileNegationAsymmetry | shellspec.py:853-904 | with no text check, `?.file p` and `?!file p` both pass when p exists; when p is missing only `?!file` passes |
| Engine.FileNegationWithOneCheck | shellspec.py:888-904 | with exactly one text check on an existing file, negation flips the verdict |
| Engine.StreamNegation | shellspec.py:814-851 | negation flips a stdout/stderr check that has content or a needle; with neither, both polarities fail |
| Engine.Compare | shellspec.py:906-952 | a comparison has a result exactly for `==`, `!=`, `startswith`, `endswith` and `contains` |
| Engine.ComparisonNegation | shellspec.py:906-952 | negation flips a comparison with two arguments, and `?.==` is `?!!=`; fewer than two arguments fail both ways |
| Engine.ComparisonReflexive | shellspec.py:906-952 | a value equals, starts with, ends with and contains itself |
| Engine.UnknownTargetFails | shellspec.py:798-812 | an assertion on an unknown target fails in both polarities |
| Engine.ResolveExecutable | shellspec.py:653-675 | the alias is applied first; an absolute path or a bare name is used as it is; a relative aliased path is joined to the script's directory, and a relative direct path to the spec file's directory, or to the working directory when there is no spec file |
| Engine.RunShell | shellspec.py:651-728 | a shell command leaves the variables, overlay and directory as they were, and counts one more launch |
| Engine.ShellOutcome | shellspec.py:651-728 | passes iff `(exit == 0) == not negated` and records the output; a pexpect fault passes only `$!`; a timeout, a missing executable or a failed spawn fails both ways and keeps the previous output |
| Engine.Act | shellspec.py:972-1052 | the file, store and env actions keep the directory and the captured output |
| Engine.RunAppend | shellspec.py:594-611 | running `a + b` runs `a`, and runs `b` only when `a` passed |
| Engine.CommentsOnly | shellspec.py:597-600 | a stanza of comments passes and changes nothing |
| Engine.FailureStops | shellspec.py:602-605 | the first failing command decides the stanza: what follows it never runs |
| Engine.SnippetSharesState | shellspec.py:1054-1061 | a snippet runs on the caller's variables, overlay and captured output, and the caller sees its changes |
| Engine.ActionFailures | shellspec.py:972-991 | an unknown snippet, a nameless call or an unknown action fails and changes nothing |
| Engine.SelfCallFails | shellspec.py:1054-1061 | a snippet that calls itself is not detected as a cycle; it fails when the recursion limit is reached |
| Engine.CaseIsolation | shellspec.py:613-617 | the variables and overlay a test case inherits make no difference to it |
| Engine.LastOutputLeaks | shellspec.py:613-617 | the captured stdout is not reset: a case's verdict can depend on the previous case |
| Engine.RunsSelected | shellspec.py:549-568 | exactly the selected cases run, in file order |
| Engine.Failed | shellspec.py:562-592 | no case failed exactly when every recorded result passed |
| Engine.RunAll | shellspec.py:511-592 | the run reports success iff every selected case passed, and it runs exactly the selected cases |
| Runner.TestRunner.constructor | shellspec.py:500-509 | a runner starts with no variables, no overlay and no captured output |
| Runner.TestRunner.RunAllTests | shellspec.py:511-592 | the loop computes RunAll: same verdict and same final state |
| Runner.TestRunner.RunTestCase | shellspec.py:613-632 | clears the variables and overlay, runs in the case's directory, and restores the directory |
| Runner.TestRunner.RunStanza | shellspec.py:594-611 | the loop computes RunCommands: it skips comments and returns False at the first failure |
| Runner.TestRunner.RunCommand | shellspec.py:634-649 | dispatches on the kind as Engine.RunCommand does |
| Runner.TestRunner.RunShellCommand | shellspec.py:651-728 | computes RunShell: the invocation, the captured output and the pass/fail rule |
| Runner.TestRunner.RunAssertion | shellspec.py:798-812 | dispatches on the target as Engine.RunAssertion does |
| Runner.TestRunner.AssertStdoutStderr | shellspec.py:814-851 | computes CheckStream |
| Runner.TestRunner.AssertFile | shellspec.py:853-904 | computes CheckFile |
| Runner.TestRunner.AssertComparison | shellspec.py:906-952 | computes CheckComparison |
| Runner.TestRunner.RunDslAction | shellspec.py:972-991 | dispatches on the action as Engine.RunAction does |
| Runner.TestRunner.CreateFile | shellspec.py:993-1015 | succeeds exactly when Engine.CreateFile does, and then changes only the files |
| Runner.TestRunner.SetEnvVar | shellspec.py:1017-1032 | succeeds exactly when SetEnv does, and then changes only the overlay |
| Runner.TestRunner.StoreVariable | shellspec.py:1034-1052 | succeeds exactly when Engine.StoreVariable does, and then changes only the variables |
| Runner.TestRunner.InvokeSnippet | shellspec.py:1054-1061 | runs the resolved snippet on this runner's state; an unknown name, or the recursion limit, fails with nothing changed |
| Runner.FailedAppend | shellspec.py:562-567 | recording a result adds its number to the failed list exactly when it failed |
| Text.TrimStartFacts | shellspec.py:424 | `lstrip` removes exactly the leading whitespace |
| Text.TrimEndFacts | shellspec.py:424 | `rstrip` removes exactly the trailing whitespace |
| Text.BlankIsTrimEmpty | shellspec.py:363 | a line is blank exactly when it strips to the empty string |
| Text.IndexOfFacts | shellspec.py:842 | the first occurrence is found exactly when the needle occurs (Python's `in`) |
| Text.OctalValue | shellspec.py:999 | a mode parses exactly when it is a non-empty string of octal digits |
| Text.JoinPath | shellspec.py:672 | the joined path ends with the path; an absolute path (or an empty base) replaces the base; otherwise the path follows the base after one `/`, none added when the base already ends with `/` |
| Text.LowerIdempotent | shellspec.py:545 | lower-casing twice is lower-casing once |
| Text.LowerKeepsDigits | shellspec.py:541-545 | lower-casing keeps a string of digits as it is and keeps non-digit strings non-digit |

## Left out

- Process execution: `subprocess.run` and the pexpect spawn/expect/sendline dialogue (shellspec.py:730-796) are the oracle functions `Config.process` and `Config.session`. The oracles receive the invocation (executable, resolved arguments, environment, interactions, directory, files and a launch counter) and return the exit status, the output and the files left behind, or a timeout, a missing executable or a fault.
- Printing, colours, terminal width, the `verbose` global and `show_variable_values` (shellspec.py:19-118, every `print`) are presentation only.
- `setup_test_runs_directory`, the random suffix and `os.chdir` (shellspec.py:121-141, 620-632) are not modelled. The test-runs directory and the suffix are parameters of `Config`, and the working directory is a field of the state.
- The filesystem is a map from path to text and mode, keyed by `os.path.join` of the working directory and the path. There is no path normalisation and no directory structure.
- Text.OctalValue: accepts only non-empty strings of digits 0-7, whereas Python's `int(x, 8)` also accepts a sign, a `0o` prefix, underscores and surrounding whitespace.
- Engine.CheckFile: reading an existing file never fails. In the source, `read_text` (shellspec.py:865) can raise: a permission error for a mode without read access when not run as root, an `IsADirectoryError` for a directory, or a decoding error for binary data. `run_command` turns that into False. The stored mode is never consulted.
- Engine.CreatedFilePasses: holds only because reads never fail in the model. In the source, a file created with a mode that forbids reading (for example `:.file p 000` with content) fails the check instead.
- Engine.CreateFile: the write always succeeds. An OS error from `makedirs`, `open` or `chmod`, which the source catches and turns into False (shellspec.py:1013-1015), is not modelled.
- `str.splitlines`, and the Unicode behaviour of `isspace`, `isdigit` and `lower`: the input is a sequence of lines, and only the ASCII behaviour is modelled.
- `main` and argparse (shellspec.py:1064-1107): command-line plumbing.
- The `EOFError` handlers in the parser never fire, because every `peek` is guarded by `is_eof`. `Reader.Peek` and `Reader.Consume` require that the reader is not at the end, and the handlers are not modelled.
- A `ValueError` from the parser is the `Err` of a `Result` that carries the error kind and the 1-based line. The message text is not modelled.
- Python's recursion limit is a `fuel` parameter. A snippet call with no fuel left fails, as the `RecursionError` caught by `run_command` does. The exact depth at which Python gives up is not modelled.
- Exceptions inside `_run_shell_command` other than a timeout, a missing executable or a failed spawn (for example a pexpect error while spawning) are folded into the oracle's outcomes.
- The `files` a test case leaves behind are carried into the next case. The source isolates cases only through their separate directories, and the model does the same through the path keys.
