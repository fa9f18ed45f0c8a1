/** What TestRunner (shellspec.py:499-1061) decides, as functions of the
    runner's state.

    The outside world is a Config: the processes a shell command starts are
    oracles that answer an Invocation, the files the scripts see are a map
    from path to File, and the scratch-directory suffix is chosen by the
    configuration. A command's run maps a State to a verdict and a new
    State; a stanza runs its commands in order and stops at the first one
    that fails. Snippet calls consume fuel, which stands for Python's
    recursion limit: a call with no fuel left fails, as the RecursionError
    that run_command catches makes it fail. */
module Engine {
  import opened Wrappers
  import opened Text
  import opened Commands
  import opened Parsing

  /** A file the scripts can see: its text and its permission bits. */
  datatype File = File(text: string, mode: nat)

  type Files = map<string, File>

  /** What a shell command is started with; `serial` counts the commands
      started before it, so that the same command may behave differently
      when it is run again. */
  datatype Invocation = Invocation(
    executable: string,
    args: seq<string>,
    env: map<string, string>,
    interactions: seq<Interaction>,
    cwd: string,
    files: Files,
    serial: nat)

  /** How subprocess.run ends: with an exit code and the captured output,
      by timing out, or because the executable does not exist. `files` is
      the filesystem the process leaves behind. */
  datatype ProcessReply =
    | Exited(code: int, stdout: string, stderr: string, files: Files)
    | TimedOut(files: Files)
    | NotFound

  /** How a pexpect session ends: closed, with `exitstatus` (None when a
      signal ended the process) and the output read since the last match;
      with a pexpect exception during the interactions; or because the
      executable could not be spawned. */
  datatype SessionReply =
    | Closed(status: Option<int>, before: string, files: Files)
    | Faulted(before: string, files: Files)
    | SpawnFailed

  /** The world the runner works in. `scriptDir` is the directory of
      shellspec.py, `specDir` the directory of the spec file when one was
      given, `runsDir` the test-runs directory, and `suffix(n)` the random
      suffix drawn for the n-th test case's directory. */
  datatype Config = Config(
    process: Invocation -> ProcessReply,
    session: Invocation -> SessionReply,
    environ: map<string, string>,
    aliases: map<string, string>,
    scriptDir: string,
    specDir: Option<string>,
    runsDir: string,
    suffix: nat -> string)

  /** COMMAND_ALIASES. */
  const DefaultAliases: map<string, string> := map["age-store.py" := "../age-store.py"]

  /** The default mode of a created file, 0o644. */
  const DefaultMode: nat := 420

  /** The exit code a faulted interactive session reports. */
  const FaultExitCode: int := -1024

  /** The runner's fields, plus the working directory, the filesystem and
      the number of commands started so far. */
  datatype State = State(
    variables: map<string, string>,
    envVars: map<string, string>,
    lastStdout: string,
    lastStderr: string,
    cwd: string,
    files: Files,
    launches: nat)

  // ---------------------------------------------------------------------
  // Test selection and scratch directories

  function SanitizeChar(c: char): char {
    if IsAlnum(c) then c else '_'
  }

  /** sanitize_test_name: every character outside [a-zA-Z0-9] becomes `_`. */
  function Sanitize(name: string): (r: string)
    ensures |r| == |name|
    decreases |name|
  {
    if name == [] then [] else [SanitizeChar(name[0])] + Sanitize(name[1..])
  }

  /** Sanitize keeps letters and digits in place and replaces every other
      character with `_`. */
  lemma {:induction false} SanitizeChars(name: string)
    ensures forall i :: 0 <= i < |name| ==>
      (IsAlnum(name[i]) ==> Sanitize(name)[i] == name[i]) &&
      (!IsAlnum(name[i]) ==> Sanitize(name)[i] == '_')
    decreases |name|
  {
    if name != [] {
      SanitizeChars(name[1..]);
      assert forall i :: 1 <= i < |name| ==> Sanitize(name)[i] == Sanitize(name[1..])[i - 1];
    }
  }

  /** A sanitized name is safe as it is. */
  lemma {:induction false} SanitizeIdempotent(name: string)
    ensures Sanitize(Sanitize(name)) == Sanitize(name)
    decreases |name|
  {
    if name != [] {
      SanitizeIdempotent(name[1..]);
      assert Sanitize(name)[1..] == Sanitize(name[1..]);
    }
  }

  /** The name of a test case's directory under the test-runs directory. */
  function TestDirName(name: string, suffix: string): (r: string)
    ensures |r| == |name| + 1 + |suffix|
    ensures r[..|name|] == Sanitize(name) && r[|name|] == '-' && r[|name| + 1..] == suffix
  {
    Sanitize(name) + "-" + suffix
  }

  /** should_run_test: no filter (or an empty one) selects everything, a
      filter of digits selects the test with that 1-based number, and any
      other filter selects the names it occurs in, ignoring case. */
  function ShouldRun(filter: Option<string>, num: nat, name: string): bool {
    if filter.None? || filter.value == [] then true
    else if AllDigits(filter.value) then num == DecimalValue(filter.value)
    else IsSubstring(Lower(filter.value), Lower(name))
  }

  /** The case of the filter and of the name does not matter. */
  lemma ShouldRunIgnoresCase(filter: string, num: nat, name: string)
    ensures ShouldRun(Some(filter), num, name) == ShouldRun(Some(Lower(filter)), num, Lower(name))
  {
    LowerKeepsDigits(filter);
    LowerIdempotent(filter);
    LowerIdempotent(name);
  }

  /** The 1-based numbers of the cases from index `i` on that a filter
      selects, in order. */
  function SelectedFrom(filter: Option<string>, cases: seq<Stanza>, i: nat): seq<nat>
    requires i <= |cases|
    decreases |cases| - i
  {
    if i == |cases| then []
    else if ShouldRun(filter, i + 1, cases[i].name) then [i + 1] + SelectedFrom(filter, cases, i + 1)
    else SelectedFrom(filter, cases, i + 1)
  }

  /** `r` lists case numbers above `i`, in increasing order. */
  predicate Increasing(r: seq<nat>, i: nat, n: nat) {
    (forall k :: 0 <= k < |r| ==> i < r[k] <= n) &&
    (forall k, l :: 0 <= k < l < |r| ==> r[k] < r[l])
  }

  /** `n` is the number of a case the filter accepts. */
  predicate Picks(filter: Option<string>, cases: seq<Stanza>, n: nat) {
    0 < n <= |cases| && ShouldRun(filter, n, cases[n - 1].name)
  }

  /** Every number in `r` is that of a case the filter accepts. */
  predicate Accepted(filter: Option<string>, cases: seq<Stanza>, r: seq<nat>) {
    forall k :: 0 <= k < |r| ==> Picks(filter, cases, r[k])
  }

  /** The selection lists case numbers in increasing order. */
  lemma {:induction false} SelectedIncreasing(filter: Option<string>, cases: seq<Stanza>, i: nat)
    requires i <= |cases|
    ensures Increasing(SelectedFrom(filter, cases, i), i, |cases|)
    decreases |cases| - i
  {
    if i < |cases| {
      SelectedIncreasing(filter, cases, i + 1);
      var rest := SelectedFrom(filter, cases, i + 1);
      if ShouldRun(filter, i + 1, cases[i].name) {
        var r := [i + 1] + rest;
        assert r == SelectedFrom(filter, cases, i);
        forall k | 0 <= k < |r|
          ensures i < r[k] <= |cases|
        {
          if k > 0 {
            assert r[k] == rest[k - 1];
          }
        }
        forall k, l | 0 <= k < l < |r|
          ensures r[k] < r[l]
        {
          assert r[l] == rest[l - 1];
          if k > 0 {
            assert r[k] == rest[k - 1];
          }
        }
      }
    }
  }

  /** The selection holds only cases the filter accepts. */
  lemma {:induction false} SelectedAccepted(filter: Option<string>, cases: seq<Stanza>, i: nat)
    requires i <= |cases|
    ensures Accepted(filter, cases, SelectedFrom(filter, cases, i))
    decreases |cases| - i
  {
    if i < |cases| {
      SelectedAccepted(filter, cases, i + 1);
      var rest := SelectedFrom(filter, cases, i + 1);
      if ShouldRun(filter, i + 1, cases[i].name) {
        var r := [i + 1] + rest;
        assert r == SelectedFrom(filter, cases, i);
        forall k | 0 <= k < |r|
          ensures Picks(filter, cases, r[k])
        {
          if k > 0 {
            assert r[k] == rest[k - 1];
          }
        }
      }
    }
  }

  /** The selection misses no case the filter accepts: with SelectedAccepted,
      a case after `i` is selected exactly when the filter accepts it. */
  lemma {:induction false} SelectedComplete(filter: Option<string>, cases: seq<Stanza>, i: nat)
    requires i <= |cases|
    ensures forall n :: i < n && Picks(filter, cases, n) ==> n in SelectedFrom(filter, cases, i)
    decreases |cases| - i
  {
    if i < |cases| {
      SelectedComplete(filter, cases, i + 1);
    }
  }

  /** A filter of digits selects at most one case: the one with that number,
      if there is one. */
  lemma {:induction false} SelectByNumber(f: string, cases: seq<Stanza>, i: nat)
    requires AllDigits(f) && i <= |cases|
    ensures var v := DecimalValue(f);
      SelectedFrom(Some(f), cases, i) == if i < v <= |cases| then [v] else []
    decreases |cases| - i
  {
    if i < |cases| {
      SelectByNumber(f, cases, i + 1);
    }
  }

  /** A missing or empty filter selects every case, in order. */
  lemma {:induction false} SelectAll(filter: Option<string>, cases: seq<Stanza>, i: nat)
    requires filter.None? || filter.value == []
    requires i <= |cases|
    ensures var r := SelectedFrom(filter, cases, i);
      |r| == |cases| - i && forall k :: 0 <= k < |r| ==> r[k] == i + k + 1
    decreases |cases| - i
  {
    if i < |cases| {
      SelectAll(filter, cases, i + 1);
    }
  }

  // ---------------------------------------------------------------------
  // Variables and the environment overlay

  /** _resolve_value: `@name` stands for the stored variable `name`; an
      undefined variable, and any text not starting with `@`, stays as it
      is. */
  function Resolve(vars: map<string, string>, v: string): (r: string)
    ensures !StartsWith(v, "@") ==> r == v
    ensures StartsWith(v, "@") && v[1..] !in vars ==> r == v
    ensures StartsWith(v, "@") && v[1..] in vars ==> r == vars[v[1..]]
  {
    if StartsWith(v, "@") && v[1..] in vars then vars[v[1..]] else v
  }

  function ResolveAll(vars: map<string, string>, args: seq<string>): (r: seq<string>)
    ensures |r| == |args| && forall i :: 0 <= i < |args| ==> r[i] == Resolve(vars, args[i])
    decreases |args|
  {
    if args == [] then [] else [Resolve(vars, args[0])] + ResolveAll(vars, args[1..])
  }

  /** _store_variable: `@name` (with a non-empty name) receives the trimmed
      text, and no other variable changes; anything else is refused. */
  function StoreVariable(args: seq<string>, value: string, vars: map<string, string>): (r: Option<map<string, string>>)
    ensures r.Some? <==> |args| > 0 && StartsWith(args[0], "@") && |args[0]| > 1
    ensures r.Some? ==> args[0][1..] in r.value && r.value[args[0][1..]] == Trim(value)
    ensures r.Some? ==> forall k :: k != args[0][1..] ==>
      (k in r.value <==> k in vars) && (k in vars ==> r.value[k] == vars[k])
  {
    if args == [] || !StartsWith(args[0], "@") || args[0][1..] == [] then None
    else Some(vars[args[0][1..] := Trim(value)])
  }

  /** A stored variable resolves to the trimmed text it was given. */
  lemma StoreThenResolve(args: seq<string>, value: string, vars: map<string, string>)
    requires StoreVariable(args, value, vars).Some?
    ensures Resolve(StoreVariable(args, value, vars).value, args[0]) == Trim(value)
  {
  }

  /** _set_env_var: needs a name and a value; the value is resolved, and
      no other entry of the overlay changes. */
  function SetEnv(args: seq<string>, vars: map<string, string>, env: map<string, string>): (r: Option<map<string, string>>)
    ensures r.Some? <==> |args| >= 2
    ensures r.Some? ==> args[0] in r.value && r.value[args[0]] == Resolve(vars, args[1])
    ensures r.Some? ==> forall k :: k != args[0] ==>
      (k in r.value <==> k in env) && (k in env ==> r.value[k] == env[k])
  {
    if |args| < 2 then None else Some(env[args[0] := Resolve(vars, args[1])])
  }

  /** The environment a shell command gets: the process environment with
      the overlay on top. */
  function ShellEnv(cfg: Config, st: State): map<string, string> {
    cfg.environ + st.envVars
  }

  /** A variable set with `:.env` reaches every later shell command of the
      test case, whatever the process environment holds. */
  lemma EnvReachesShell(cfg: Config, args: seq<string>, st: State)
    requires SetEnv(args, st.variables, st.envVars).Some?
    ensures var env := ShellEnv(cfg, st.(envVars := SetEnv(args, st.variables, st.envVars).value));
      args[0] in env && env[args[0]] == Resolve(st.variables, args[1])
  {
  }

  // ---------------------------------------------------------------------
  // Files

  /** Where a path a command names lives: relative paths are taken from the
      working directory. */
  function FileKey(cwd: string, path: string): string {
    JoinPath(cwd, path)
  }

  /** The mode `:.file` gives: 0o644 unless a second argument is given,
      which must be octal. */
  function FileMode(args: seq<string>): Option<nat> {
    if |args| > 1 then OctalValue(args[1]) else Some(DefaultMode)
  }

  /** _create_file: writes the content lines joined by newlines (nothing
      when there are none) with the given mode; refused without a path or
      with a mode that is not octal. */
  function CreateFile(c: Command, st: State): (r: Option<Files>)
    ensures r.Some? <==> |c.args| > 0 && FileMode(c.args).Some?
    ensures r.Some? ==>
      FileKey(st.cwd, c.args[0]) in r.value &&
      r.value[FileKey(st.cwd, c.args[0])] == File(JoinLines(c.content), FileMode(c.args).value)
    ensures r.Some? ==> forall k :: k != FileKey(st.cwd, c.args[0]) ==>
      (k in r.value <==> k in st.files) && (k in st.files ==> r.value[k] == st.files[k])
  {
    if c.args == [] then None
    else match FileMode(c.args)
      case None => None
      case Some(m) => Some(st.files[FileKey(st.cwd, c.args[0]) := File(JoinLines(c.content), m)])
  }

  /** _assert_file. Without negation the file must exist, contain the
      second argument when one is given and equal the joined content lines
      when they join to a non-empty text. With negation the check passes
      when the file is missing, and otherwise each of those text checks
      that is given must fail. An empty needle or an empty joined content
      is no check at all. */
  function CheckFile(c: Command, st: State): bool {
    if c.args == [] then false
    else
      var key := FileKey(st.cwd, c.args[0]);
      var has := if |c.args| >= 2 then c.args[1] else "";
      var exact := JoinLines(c.content);
      var present := key in st.files;
      var contents := if present then st.files[key].text else "";
      if !c.negated then
        present && (has == [] || IsSubstring(has, contents)) && (exact == [] || contents == exact)
      else
        !present || ((has == [] || !IsSubstring(has, contents)) && (exact == [] || contents != exact))
  }

  /** A file `:.file` created passes `?.file` on the same path, with the
      same content lines. */
  lemma CreatedFilePasses(make: Command, check: Command, st: State)
    requires CreateFile(make, st).Some?
    requires |check.args| == 1 && check.args[0] == make.args[0]
    requires check.content == make.content && !check.negated
    ensures CheckFile(check, st.(files := CreateFile(make, st).value))
  {
  }

  /** `?.file p` and `?!file p` are not each other's negation: when `p`
      exists and no text check is given, both pass. A missing file fails
      the one and passes the other. */
  lemma FileNegationAsymmetry(c: Command, st: State)
    requires |c.args| == 1 && c.content == []
    ensures FileKey(st.cwd, c.args[0]) in st.files ==>
      CheckFile(c.(negated := false), st) && CheckFile(c.(negated := true), st)
    ensures FileKey(st.cwd, c.args[0]) !in st.files ==>
      !CheckFile(c.(negated := false), st) && CheckFile(c.(negated := true), st)
  {
  }

  /** With exactly one text check given, negation does flip the verdict
      on an existing file. */
  lemma FileNegationWithOneCheck(c: Command, st: State)
    requires |c.args| >= 1 && FileKey(st.cwd, c.args[0]) in st.files
    requires (|c.args| >= 2 && c.args[1] != [] && JoinLines(c.content) == []) ||
             ((|c.args| < 2 || c.args[1] == []) && JoinLines(c.content) != [])
    ensures CheckFile(c.(negated := true), st) == !CheckFile(c.(negated := false), st)
  {
  }

  // ---------------------------------------------------------------------
  // Output and comparison assertions

  /** _assert_stdout_stderr: with content lines, the text must equal them
      joined by newlines; otherwise it must contain the first argument; the
      verdict is flipped by negation. With neither, the check fails. */
  function CheckStream(c: Command, text: string): bool {
    if c.content != [] then (text == JoinLines(c.content)) != c.negated
    else if c.args == [] then false
    else IsSubstring(c.args[0], text) != c.negated
  }

  /** Negation flips a stream check that has something to check, and a
      stream check with nothing to check fails both ways. */
  lemma StreamNegation(c: Command, text: string)
    ensures c.content != [] || c.args != [] ==>
      CheckStream(c.(negated := !c.negated), text) == !CheckStream(c, text)
    ensures c.content == [] && c.args == [] ==>
      !CheckStream(c, text) && !CheckStream(c.(negated := !c.negated), text)
  {
  }

  predicate IsComparison(op: string) {
    op == "==" || op == "!=" || op == "startswith" || op == "endswith" || op == "contains"
  }

  /** The base result of a comparison, before negation. */
  function Compare(op: string, left: string, right: string): (r: Option<bool>)
    ensures r.Some? <==> IsComparison(op)
  {
    if op == "==" then Some(left == right)
    else if op == "!=" then Some(left != right)
    else if op == "startswith" then Some(StartsWith(left, right))
    else if op == "endswith" then Some(EndsWith(left, right))
    else if op == "contains" then Some(IsSubstring(right, left))
    else None
  }

  /** _assert_comparison: both arguments are resolved, compared, and the
      result is flipped by negation; fewer than two arguments fail. */
  function CheckComparison(c: Command, vars: map<string, string>): bool {
    if |c.args| < 2 then false
    else match Compare(c.token, Resolve(vars, c.args[0]), Resolve(vars, c.args[1]))
      case None => false
      case Some(b) => b != c.negated
  }

  /** `==` and `!=` are each other's negation, and `?!` negates any
      comparison that has its two arguments. */
  lemma ComparisonNegation(c: Command, vars: map<string, string>)
    requires IsComparison(c.token)
    ensures |c.args| >= 2 ==> CheckComparison(c.(negated := !c.negated), vars) == !CheckComparison(c, vars)
    ensures |c.args| < 2 ==> !CheckComparison(c, vars) && !CheckComparison(c.(negated := !c.negated), vars)
    ensures |c.args| >= 2 && c.token == "==" ==>
      CheckComparison(c, vars) == CheckComparison(c.(token := "!=", negated := !c.negated), vars)
  {
  }

  /** A value starts with, ends with and contains itself, and equals
      itself. */
  lemma ComparisonReflexive(c: Command, vars: map<string, string>)
    requires IsComparison(c.token) && c.token != "!=" && !c.negated
    requires |c.args| >= 2 && c.args[0] == c.args[1]
    ensures CheckComparison(c, vars)
  {
    var v := Resolve(vars, c.args[0]);
    assert OccursAt(v, v, 0);
  }

  /** _run_assertion's dispatch on the target. */
  function RunAssertion(c: Command, st: State): bool {
    if c.token == "stdout" then CheckStream(c, st.lastStdout)
    else if c.token == "stderr" then CheckStream(c, st.lastStderr)
    else if c.token == "file" then CheckFile(c, st)
    else if IsComparison(c.token) then CheckComparison(c, st.variables)
    else false
  }

  /** An unknown target fails both ways. */
  lemma UnknownTargetFails(c: Command, st: State)
    requires c.token != "stdout" && c.token != "stderr" && c.token != "file" && !IsComparison(c.token)
    ensures !RunAssertion(c, st) && !RunAssertion(c.(negated := !c.negated), st)
  {
  }

  // ---------------------------------------------------------------------
  // Shell commands

  /** The executable a shell command's token names: the alias, if the
      token has one; an absolute path as it is; a path with a `/` joined to
      the directory of shellspec.py (for an alias) or of the spec file (or
      the working directory when there is no spec file); a bare name as it
      is, for the system to look up. */
  function ResolveExecutable(cfg: Config, token: string, cwd: string): (r: string)
    ensures var exe := if token in cfg.aliases then cfg.aliases[token] else token;
      EndsWith(r, exe) &&
      (StartsWith(exe, "/") || !IsSubstring("/", exe) ==> r == exe) &&
      (!StartsWith(exe, "/") && IsSubstring("/", exe) && token in cfg.aliases ==> r == JoinPath(cfg.scriptDir, exe)) &&
      (!StartsWith(exe, "/") && IsSubstring("/", exe) && token !in cfg.aliases ==> r == JoinPath(cfg.specDir.GetOr(cwd), exe))
  {
    var exe := if token in cfg.aliases then cfg.aliases[token] else token;
    if StartsWith(exe, "/") then exe
    else if IsSubstring("/", exe) then
      var base := if token in cfg.aliases then cfg.scriptDir else cfg.specDir.GetOr(cwd);
      JoinPath(base, exe)
    else exe
  }

  /** The pass/fail rule of a finished shell command. */
  predicate ShellPasses(exitCode: int, negated: bool) {
    (exitCode == 0) == !negated
  }

  /** The Invocation a shell command is started with. */
  function InvocationOf(cfg: Config, c: Command, st: State): Invocation {
    Invocation(ResolveExecutable(cfg, c.token, st.cwd), ResolveAll(st.variables, c.args),
               ShellEnv(cfg, st), c.interactions, st.cwd, st.files, st.launches)
  }

  /** _run_shell_command. With interactions the command runs under pexpect:
      its exit status (0 when there is none) or -1024 after a fault decides,
      its output becomes the captured stdout and stderr is empty. Without,
      it runs under subprocess. A command that times out or cannot be
      started fails whatever its polarity, and leaves the captured output
      as it was. */
  function RunShell(cfg: Config, c: Command, st: State): (r: (bool, State))
    ensures r.1.variables == st.variables && r.1.envVars == st.envVars && r.1.cwd == st.cwd
    ensures r.1.launches == st.launches + 1
  {
    var inv := InvocationOf(cfg, c, st);
    var st1 := st.(launches := st.launches + 1);
    if c.interactions != [] then
      match cfg.session(inv)
      case Closed(status, before, files) =>
        (ShellPasses(status.GetOr(0), c.negated), st1.(lastStdout := before, lastStderr := "", files := files))
      case Faulted(before, files) =>
        (ShellPasses(FaultExitCode, c.negated), st1.(lastStdout := before, lastStderr := "", files := files))
      case SpawnFailed => (false, st1)
    else
      match cfg.process(inv)
      case Exited(code, out, err, files) =>
        (ShellPasses(code, c.negated), st1.(lastStdout := out, lastStderr := err, files := files))
      case TimedOut(files) => (false, st1.(files := files))
      case NotFound => (false, st1)
  }

  /** A finished command passes exactly when its exit status agrees with
      its polarity; it records what it printed. A faulted session passes
      only `$!`. A timeout, a missing executable or a failed spawn fails
      both `$.` and `$!`. */
  lemma ShellOutcome(cfg: Config, c: Command, st: State)
    ensures var inv := InvocationOf(cfg, c, st); var r := RunShell(cfg, c, st);
      (c.interactions == [] && cfg.process(inv).Exited? ==>
        (r.0 <==> (cfg.process(inv).code == 0) == !c.negated) &&
        r.1.lastStdout == cfg.process(inv).stdout && r.1.lastStderr == cfg.process(inv).stderr) &&
      (c.interactions == [] && !cfg.process(inv).Exited? ==>
        !r.0 && r.1.lastStdout == st.lastStdout && r.1.lastStderr == st.lastStderr) &&
      (c.interactions != [] && cfg.session(inv).Faulted? ==> (r.0 <==> c.negated)) &&
      (c.interactions != [] && cfg.session(inv).Closed? ==>
        (r.0 <==> (cfg.session(inv).status.GetOr(0) == 0) == !c.negated) && r.1.lastStderr == "") &&
      (c.interactions != [] && cfg.session(inv).SpawnFailed? ==> !r.0)
  {
  }

  // ---------------------------------------------------------------------
  // Stanzas, commands and actions

  /** The snippet registered under `name` (TestSuite.resolve_snippet). */
  function SnippetNamed(suite: Suite, name: string): Option<Stanza> {
    if name in suite.snippets then Some(suite.snippets[name]) else None
  }

  /** The actions other than a snippet call (file, stdout, stderr, env):
      the new state, or None when the action is refused or unknown. */
  function Act(c: Command, st: State): (r: Option<State>)
    ensures r.Some? ==>
      r.value.cwd == st.cwd && r.value.launches == st.launches &&
      r.value.lastStdout == st.lastStdout && r.value.lastStderr == st.lastStderr
  {
    if c.token == "file" then
      match CreateFile(c, st)
      case None => None
      case Some(files) => Some(st.(files := files))
    else if c.token == "stdout" || c.token == "stderr" then
      var text := if c.token == "stdout" then st.lastStdout else st.lastStderr;
      match StoreVariable(c.args, text, st.variables)
      case None => None
      case Some(vars) => Some(st.(variables := vars))
    else if c.token == "env" then
      match SetEnv(c.args, st.variables, st.envVars)
      case None => None
      case Some(env) => Some(st.(envVars := env))
    else None
  }

  /** run_stanza: comments are skipped; the commands run in order against
      one state, and the first that fails ends the stanza with False. */
  function RunCommands(cfg: Config, suite: Suite, cmds: seq<Command>, st: State, fuel: nat): (bool, State)
    decreases fuel, |cmds|, 2
  {
    if cmds == [] then (true, st)
    else if cmds[0].kind == Comment then RunCommands(cfg, suite, cmds[1..], st, fuel)
    else
      var (ok, st1) := RunCommand(cfg, suite, cmds[0], st, fuel);
      if ok then RunCommands(cfg, suite, cmds[1..], st1, fuel) else (false, st1)
  }

  /** run_command's dispatch on the kind. */
  function RunCommand(cfg: Config, suite: Suite, c: Command, st: State, fuel: nat): (bool, State)
    decreases fuel, 0, 1
  {
    match c.kind
    case Shell => RunShell(cfg, c, st)
    case Assertion => (RunAssertion(c, st), st)
    case DslAction => RunAction(cfg, suite, c, st, fuel)
    case Comment => (true, st)
  }

  /** _run_dsl_action: `:.@ name` runs the snippet against the caller's
      state; an unknown snippet, a missing name, an unknown action or a
      refused one fails and changes nothing. */
  function RunAction(cfg: Config, suite: Suite, c: Command, st: State, fuel: nat): (bool, State)
    decreases fuel, 0, 0
  {
    if c.token == "@" then
      if c.args == [] then (false, st)
      else match SnippetNamed(suite, c.args[0])
        case None => (false, st)
        case Some(snippet) =>
          if fuel == 0 then (false, st) else RunCommands(cfg, suite, snippet.commands, st, fuel - 1)
    else
      match Act(c, st)
      case None => (false, st)
      case Some(st1) => (true, st1)
  }

  /** Running `a + b` runs `a`, and then `b` only when `a` passed. */
  lemma {:induction false} RunAppend(cfg: Config, suite: Suite, a: seq<Command>, b: seq<Command>, st: State, fuel: nat)
    ensures var ra := RunCommands(cfg, suite, a, st, fuel);
      RunCommands(cfg, suite, a + b, st, fuel) == if ra.0 then RunCommands(cfg, suite, b, ra.1, fuel) else ra
    decreases |a|
  {
    if a == [] {
      assert a + b == b;
    } else {
      assert (a + b)[0] == a[0];
      assert (a + b)[1..] == a[1..] + b;
      if a[0].kind == Comment {
        RunAppend(cfg, suite, a[1..], b, st, fuel);
      } else {
        RunAppend(cfg, suite, a[1..], b, RunCommand(cfg, suite, a[0], st, fuel).1, fuel);
      }
    }
  }

  /** A stanza of comments passes and changes nothing. */
  lemma {:induction false} CommentsOnly(cfg: Config, suite: Suite, cmds: seq<Command>, st: State, fuel: nat)
    requires forall i :: 0 <= i < |cmds| ==> cmds[i].kind == Comment
    ensures RunCommands(cfg, suite, cmds, st, fuel) == (true, st)
    decreases |cmds|
  {
    if cmds != [] {
      CommentsOnly(cfg, suite, cmds[1..], st, fuel);
    }
  }

  /** A stanza passes only when every command in it ran and passed: a
      failing command makes the stanza fail however it continues. */
  lemma FailureStops(cfg: Config, suite: Suite, a: seq<Command>, c: Command, b: seq<Command>, st: State, fuel: nat)
    requires c.kind != Comment
    requires RunCommands(cfg, suite, a, st, fuel).0
    requires !RunCommand(cfg, suite, c, RunCommands(cfg, suite, a, st, fuel).1, fuel).0
    ensures RunCommands(cfg, suite, a + [c] + b, st, fuel) ==
      RunCommand(cfg, suite, c, RunCommands(cfg, suite, a, st, fuel).1, fuel)
  {
    RunAppend(cfg, suite, a, [c] + b, st, fuel);
    AppendAssoc(a, [c], b);
  }

  /** A snippet call runs the snippet's commands on the caller's own
      variables, overlay and captured output, and what the snippet changes
      is what the caller sees afterwards. */
  lemma SnippetSharesState(cfg: Config, suite: Suite, c: Command, st: State, fuel: nat)
    requires c.kind == DslAction && c.token == "@" && |c.args| > 0 && fuel > 0
    requires c.args[0] in suite.snippets
    ensures RunCommand(cfg, suite, c, st, fuel) == RunCommands(cfg, suite, suite.snippets[c.args[0]].commands, st, fuel - 1)
  {
  }

  /** Calling an unknown snippet, or calling one with no name, fails and
      changes nothing; so does an action the runner does not know. */
  lemma ActionFailures(cfg: Config, suite: Suite, c: Command, st: State, fuel: nat)
    requires c.kind == DslAction
    ensures c.token == "@" && (c.args == [] || c.args[0] !in suite.snippets) ==>
      RunCommand(cfg, suite, c, st, fuel) == (false, st)
    ensures c.token !in {"@", "file", "stdout", "stderr", "env"} ==>
      RunCommand(cfg, suite, c, st, fuel) == (false, st)
  {
  }

  /** A snippet that calls itself first fails once the fuel runs out: the
      cycle is not detected, it ends at the recursion limit. */
  lemma {:induction false} SelfCallFails(cfg: Config, suite: Suite, name: string, st: State, fuel: nat)
    requires name in suite.snippets
    requires var cmds := suite.snippets[name].commands;
      cmds != [] && cmds[0].kind == DslAction && cmds[0].token == "@" && cmds[0].args == [name]
    ensures !RunCommands(cfg, suite, suite.snippets[name].commands, st, fuel).0
    decreases fuel
  {
    var cmds := suite.snippets[name].commands;
    if fuel > 0 {
      SelfCallFails(cfg, suite, name, st, fuel - 1);
    }
    assert RunCommand(cfg, suite, cmds[0], st, fuel) ==
      (if fuel == 0 then (false, st) else RunCommands(cfg, suite, cmds, st, fuel - 1));
  }

  // ---------------------------------------------------------------------
  // Test cases and the whole run

  /** run_test_case: the variables and the overlay start empty and the
      case runs in its own directory; the captured output and the files
      are carried over from before. The working directory is restored. */
  function RunTestCase(cfg: Config, suite: Suite, tc: Stanza, num: nat, st: State, fuel: nat): (bool, State) {
    var dir := JoinPath(cfg.runsDir, TestDirName(tc.name, cfg.suffix(num)));
    var st0 := st.(variables := map[], envVars := map[], cwd := dir);
    var (ok, st1) := RunCommands(cfg, suite, tc.commands, st0, fuel);
    (ok, st1.(cwd := st.cwd))
  }

  /** The variables and the overlay a test case inherits make no
      difference to it. */
  lemma CaseIsolation(cfg: Config, suite: Suite, tc: Stanza, num: nat, st: State, vars: map<string, string>, env: map<string, string>, fuel: nat)
    ensures RunTestCase(cfg, suite, tc, num, st.(variables := vars, envVars := env), fuel) ==
      RunTestCase(cfg, suite, tc, num, st, fuel)
  {
    assert st.(variables := vars, envVars := env).(variables := map[], envVars := map[], cwd := st.cwd) ==
      st.(variables := map[], envVars := map[]);
  }

  /** The captured output is not reset between test cases: a case whose
      only command is `?.stdout x` passes or fails depending on what the
      previous case's last command printed. */
  lemma LastOutputLeaks(cfg: Config, suite: Suite, st: State, fuel: nat)
    ensures var check := Command(Assertion, "stdout", ["x"], [], "", false, 2, []);
      var tc := Stanza("t", [check], 1);
      RunTestCase(cfg, suite, tc, 2, st.(lastStdout := "x"), fuel).0 &&
      !RunTestCase(cfg, suite, tc, 2, st.(lastStdout := ""), fuel).0
  {
    var check := Command(Assertion, "stdout", ["x"], [], "", false, 2, []);
    var tc := Stanza("t", [check], 1);
    var dir := JoinPath(cfg.runsDir, TestDirName(tc.name, cfg.suffix(2)));
    assert [check][1..] == [];
    assert OccursAt("x", "x", 0);
    var good := st.(lastStdout := "x").(variables := map[], envVars := map[], cwd := dir);
    assert RunCommands(cfg, suite, [check], good, fuel) == (true, good);
    var bad := st.(lastStdout := "").(variables := map[], envVars := map[], cwd := dir);
    assert !IsSubstring("x", "");
    assert RunCommands(cfg, suite, [check], bad, fuel) == (false, bad);
  }

  /** The outcome of one selected test case. */
  datatype CaseResult = CaseResult(num: nat, passed: bool)

  function Nums(rs: seq<CaseResult>): (r: seq<nat>)
    ensures |r| == |rs| && forall k :: 0 <= k < |rs| ==> r[k] == rs[k].num
    decreases |rs|
  {
    if rs == [] then [] else [rs[0].num] + Nums(rs[1..])
  }

  /** run_all_tests from case index `i` on: each selected case, in order,
      runs on the state the previous one left. */
  function RunCases(cfg: Config, suite: Suite, filter: Option<string>, i: nat, st: State, fuel: nat): (seq<CaseResult>, State)
    requires i <= |suite.testCases|
    decreases |suite.testCases| - i
  {
    if i == |suite.testCases| then ([], st)
    else
      var tc := suite.testCases[i];
      if !ShouldRun(filter, i + 1, tc.name) then RunCases(cfg, suite, filter, i + 1, st, fuel)
      else
        var (ok, st1) := RunTestCase(cfg, suite, tc, i + 1, st, fuel);
        var (rest, st2) := RunCases(cfg, suite, filter, i + 1, st1, fuel);
        ([CaseResult(i + 1, ok)] + rest, st2)
  }

  /** Exactly the selected cases run, in file order. */
  lemma {:induction false} RunsSelected(cfg: Config, suite: Suite, filter: Option<string>, i: nat, st: State, fuel: nat)
    requires i <= |suite.testCases|
    ensures Nums(RunCases(cfg, suite, filter, i, st, fuel).0) == SelectedFrom(filter, suite.testCases, i)
    decreases |suite.testCases| - i
  {
    if i < |suite.testCases| {
      var tc := suite.testCases[i];
      if !ShouldRun(filter, i + 1, tc.name) {
        RunsSelected(cfg, suite, filter, i + 1, st, fuel);
      } else {
        var st1 := RunTestCase(cfg, suite, tc, i + 1, st, fuel).1;
        RunsSelected(cfg, suite, filter, i + 1, st1, fuel);
      }
    }
  }

  predicate AllPassed(rs: seq<CaseResult>) {
    forall k :: 0 <= k < |rs| ==> rs[k].passed
  }

  /** The numbers of the failed cases, in order (failed_tests). */
  function Failed(rs: seq<CaseResult>): (r: seq<nat>)
    ensures r == [] <==> AllPassed(rs)
    decreases |rs|
  {
    if rs == [] then []
    else if rs[0].passed then Failed(rs[1..])
    else [rs[0].num] + Failed(rs[1..])
  }

  /** run_all_tests: True exactly when no selected case failed. */
  function RunAll(cfg: Config, suite: Suite, filter: Option<string>, st: State, fuel: nat): (r: (bool, seq<CaseResult>, State))
    ensures r.0 <==> AllPassed(r.1)
    ensures Nums(r.1) == SelectedFrom(filter, suite.testCases, 0)
  {
    var (rs, st1) := RunCases(cfg, suite, filter, 0, st, fuel);
    RunsSelected(cfg, suite, filter, 0, st, fuel);
    (Failed(rs) == [], rs, st1)
  }
}
