/** The TestRunner class (shellspec.py:499-1061): the variables, the
    environment overlay and the captured output it updates while it runs a
    suite. Every method is proved to leave the runner in the state, and to
    return the verdict, that the functions of module Engine give for the
    state it started in. The processes and the filesystem are those of the
    runner's Config and of its `files` field. */
module Runner {
  import opened Wrappers
  import opened Text
  import opened Commands
  import opened Parsing
  import opened Engine

  class TestRunner {
    const cfg: Config
    var variables: map<string, string>
    var envVars: map<string, string>
    var lastStdout: string
    var lastStderr: string
    var cwd: string
    var files: Files
    var launches: nat

    /** The runner's state as the functions of Engine see it. */
    function Current(): State
      reads this
    {
      State(variables, envVars, lastStdout, lastStderr, cwd, files, launches)
    }

    /** A runner starts with no variables, no overlay and no captured
        output, in directory `cwd`, over the filesystem `files`. */
    constructor (cfg: Config, cwd: string, files: Files)
      ensures this.cfg == cfg
      ensures Current() == State(map[], map[], "", "", cwd, files, 0)
    {
      this.cfg := cfg;
      variables := map[];
      envVars := map[];
      lastStdout := "";
      lastStderr := "";
      this.cwd := cwd;
      this.files := files;
      launches := 0;
    }

    /** run_all_tests: runs the selected cases in order and reports whether
        none of them failed. */
    method RunAllTests(suite: TestSuite, filter: Option<string>, fuel: nat) returns (passed: bool)
      modifies this
      ensures var r := RunAll(cfg, suite.Value(), filter, old(Current()), fuel);
        passed == r.0 && Current() == r.2
    {
      var cases := suite.testCases;
      ghost var sv := suite.Value();
      ghost var s0 := Current();
      ghost var results: seq<CaseResult> := [];
      var failed: seq<nat> := [];
      var i := 0;
      ghost var whole := RunCases(cfg, sv, filter, 0, s0, fuel);
      AppendNil(whole.0);
      while i < |cases|
        invariant 0 <= i <= |cases| && cases == sv.testCases && sv == suite.Value()
        invariant var rest := RunCases(cfg, sv, filter, i, Current(), fuel);
          whole == (results + rest.0, rest.1)
        invariant failed == Failed(results)
        decreases |cases| - i
      {
        var testNum := i + 1;
        ghost var before := Current();
        if !ShouldRun(filter, testNum, cases[i].name) {
          CasesSkip(cfg, sv, filter, i, before, fuel);
          i := i + 1;
          continue;
        }
        var ok := RunTestCase(cases[i], testNum, suite, fuel);
        CasesRun(cfg, sv, filter, i, before, fuel, ok, Current(), results, whole);
        FailedAppend(results, CaseResult(testNum, ok));
        results := results + [CaseResult(testNum, ok)];
        if !ok {
          failed := failed + [testNum];
        }
        i := i + 1;
      }
      AppendNil(results);
      passed := |failed| == 0;
    }

    /** run_test_case: clears the variables and the overlay, runs the case
        in its own directory and comes back to the directory it was in. */
    method RunTestCase(tc: Stanza, num: nat, suite: TestSuite, fuel: nat) returns (ok: bool)
      modifies this
      ensures (ok, Current()) == Engine.RunTestCase(cfg, suite.Value(), tc, num, old(Current()), fuel)
    {
      variables := map[];
      envVars := map[];
      var oldCwd := cwd;
      cwd := JoinPath(cfg.runsDir, TestDirName(tc.name, cfg.suffix(num)));
      ok := RunStanza(tc, suite, fuel);
      cwd := oldCwd;
    }

    /** run_stanza: skips comments and returns False at the first command
        that fails. */
    method RunStanza(stanza: Stanza, suite: TestSuite, fuel: nat) returns (ok: bool)
      modifies this
      ensures (ok, Current()) == RunCommands(cfg, suite.Value(), stanza.commands, old(Current()), fuel)
      decreases fuel, 3
    {
      var cmds := stanza.commands;
      var i := 0;
      while i < |cmds|
        invariant 0 <= i <= |cmds|
        invariant RunCommands(cfg, suite.Value(), cmds, old(Current()), fuel) ==
          RunCommands(cfg, suite.Value(), cmds[i..], Current(), fuel)
        decreases |cmds| - i
      {
        var command := cmds[i];
        assert cmds[i..][0] == command && cmds[i..][1..] == cmds[i + 1..];
        if command.kind == Comment {
          i := i + 1;
          continue;
        }
        var passed := RunCommand(command, suite, fuel);
        if !passed {
          return false;
        }
        i := i + 1;
      }
      return true;
    }

    /** run_command: dispatches on the command's kind. */
    method RunCommand(c: Command, suite: TestSuite, fuel: nat) returns (ok: bool)
      modifies this
      ensures (ok, Current()) == Engine.RunCommand(cfg, suite.Value(), c, old(Current()), fuel)
      decreases fuel, 2
    {
      match c.kind
      case Shell => ok := RunShellCommand(c);
      case Assertion => ok := RunAssertion(c);
      case DslAction => ok := RunDslAction(c, suite, fuel);
      case Comment => ok := true;
    }

    /** _run_shell_command: starts the command (under pexpect when it has
        interactions), records its output and checks its exit status
        against its polarity. */
    method RunShellCommand(c: Command) returns (ok: bool)
      modifies this
      ensures (ok, Current()) == RunShell(cfg, c, old(Current()))
    {
      var executable := ResolveExecutable(cfg, c.token, cwd);
      var args := ResolveAll(variables, c.args);
      var env := cfg.environ + envVars;
      var inv := Invocation(executable, args, env, c.interactions, cwd, files, launches);
      launches := launches + 1;
      var exitCode: int;
      if c.interactions != [] {
        match cfg.session(inv)
        case SpawnFailed =>
          return false;
        case Closed(status, before, after) =>
          exitCode := status.GetOr(0);
          lastStdout, lastStderr, files := before, "", after;
        case Faulted(before, after) =>
          exitCode := FaultExitCode;
          lastStdout, lastStderr, files := before, "", after;
      } else {
        match cfg.process(inv)
        case NotFound =>
          return false;
        case TimedOut(after) =>
          files := after;
          return false;
        case Exited(code, out, err, after) =>
          exitCode := code;
          lastStdout, lastStderr, files := out, err, after;
      }
      var expectedSuccess := !c.negated;
      var actualSuccess := exitCode == 0;
      ok := expectedSuccess == actualSuccess;
    }

    /** _run_assertion: dispatches on the assertion's target. */
    method RunAssertion(c: Command) returns (ok: bool)
      ensures ok == Engine.RunAssertion(c, Current())
    {
      if c.token == "stdout" {
        ok := AssertStdoutStderr(c, lastStdout);
      } else if c.token == "stderr" {
        ok := AssertStdoutStderr(c, lastStderr);
      } else if c.token == "file" {
        ok := AssertFile(c);
      } else if c.token in ["==", "!=", "startswith", "endswith", "contains"] {
        ok := AssertComparison(c);
      } else {
        ok := false;
      }
    }

    /** _assert_stdout_stderr. */
    method AssertStdoutStderr(c: Command, text: string) returns (ok: bool)
      ensures ok == CheckStream(c, text)
    {
      if c.content != [] {
        var matches := text == JoinLines(c.content);
        return if c.negated then !matches else matches;
      }
      if c.args == [] {
        return false;
      }
      var found := IndexOf(text, c.args[0]).Some?;
      IndexOfFacts(text, c.args[0]);
      ok := if c.negated then !found else found;
    }

    /** _assert_file. */
    method AssertFile(c: Command) returns (ok: bool)
      ensures ok == CheckFile(c, Current())
    {
      if c.args == [] {
        return false;
      }
      var key := FileKey(cwd, c.args[0]);
      var has := if |c.args| >= 2 then c.args[1] else "";
      var exact := JoinLines(c.content);
      var present := key in files;
      var contents := "";
      if present && (exact != [] || has != []) {
        contents := files[key].text;
      }
      IndexOfFacts(contents, has);
      if !c.negated {
        ok := present;
        if present && has != [] {
          ok := ok && IndexOf(contents, has).Some?;
        }
        if present && exact != [] {
          ok := ok && contents == exact;
        }
      } else {
        if !present {
          return true;
        }
        ok := true;
        if has != [] {
          ok := IndexOf(contents, has).None?;
        }
        if exact != [] {
          ok := ok && contents != exact;
        }
      }
    }

    /** _assert_comparison. */
    method AssertComparison(c: Command) returns (ok: bool)
      ensures ok == CheckComparison(c, variables)
    {
      if |c.args| < 2 {
        return false;
      }
      var left := Resolve(variables, c.args[0]);
      var right := Resolve(variables, c.args[1]);
      var result: bool;
      if c.token == "==" {
        result := left == right;
      } else if c.token == "!=" {
        result := left != right;
      } else if c.token == "startswith" {
        result := StartsWith(left, right);
      } else if c.token == "endswith" {
        result := EndsWith(left, right);
      } else if c.token == "contains" {
        IndexOfFacts(left, right);
        result := IndexOf(left, right).Some?;
      } else {
        return false;
      }
      ok := if c.negated then !result else result;
    }

    /** _run_dsl_action: dispatches on the action's token. */
    method RunDslAction(c: Command, suite: TestSuite, fuel: nat) returns (ok: bool)
      modifies this
      ensures (ok, Current()) == RunAction(cfg, suite.Value(), c, old(Current()), fuel)
      decreases fuel, 1
    {
      if c.token == "file" {
        ok := CreateFile(c);
      } else if c.token == "stdout" {
        ok := StoreVariable(c, lastStdout);
      } else if c.token == "stderr" {
        ok := StoreVariable(c, lastStderr);
      } else if c.token == "env" {
        ok := SetEnvVar(c);
      } else if c.token == "@" {
        if c.args == [] {
          return false;
        }
        ok := InvokeSnippet(c.args[0], suite, fuel);
      } else {
        ok := false;
      }
    }

    /** _create_file. */
    method CreateFile(c: Command) returns (ok: bool)
      modifies this
      ensures ok == Engine.CreateFile(c, old(Current())).Some?
      ensures Current() == if ok then old(Current()).(files := Engine.CreateFile(c, old(Current())).value) else old(Current())
    {
      if c.args == [] {
        return false;
      }
      var mode := DefaultMode;
      if |c.args| > 1 {
        var parsed := OctalValue(c.args[1]);
        if parsed.None? {
          return false;
        }
        mode := parsed.value;
      }
      var content := if c.content != [] then JoinLines(c.content) else "";
      files := files[FileKey(cwd, c.args[0]) := File(content, mode)];
      ok := true;
    }

    /** _set_env_var. */
    method SetEnvVar(c: Command) returns (ok: bool)
      modifies this
      ensures ok == SetEnv(c.args, old(variables), old(envVars)).Some?
      ensures Current() == if ok then old(Current()).(envVars := SetEnv(c.args, old(variables), old(envVars)).value) else old(Current())
    {
      if |c.args| < 2 {
        return false;
      }
      var value := Resolve(variables, c.args[1]);
      envVars := envVars[c.args[0] := value];
      ok := true;
    }

    /** _store_variable. */
    method StoreVariable(c: Command, value: string) returns (ok: bool)
      modifies this
      ensures ok == Engine.StoreVariable(c.args, value, old(variables)).Some?
      ensures Current() == if ok then old(Current()).(variables := Engine.StoreVariable(c.args, value, old(variables)).value) else old(Current())
    {
      if c.args == [] {
        return false;
      }
      var varName := c.args[0];
      if !StartsWith(varName, "@") {
        return false;
      }
      var cleanName := varName[1..];
      if cleanName == [] {
        return false;
      }
      variables := variables[cleanName := Trim(value)];
      ok := true;
    }

    /** _invoke_snippet: runs the named snippet on this runner's state. */
    method InvokeSnippet(name: string, suite: TestSuite, fuel: nat) returns (ok: bool)
      modifies this
      ensures (ok, Current()) ==
        (match SnippetNamed(suite.Value(), name)
         case None => (false, old(Current()))
         case Some(snippet) =>
           if fuel == 0 then (false, old(Current()))
           else RunCommands(cfg, suite.Value(), snippet.commands, old(Current()), fuel - 1))
      decreases fuel, 0
    {
      var snippet := suite.ResolveSnippet(name);
      if snippet.None? {
        return false;
      }
      if fuel == 0 {
        return false;
      }
      ok := RunStanza(snippet.value, suite, fuel - 1);
    }
  }

  /** One step of RunCases: an unselected case is skipped. */
  lemma CasesSkip(cfg: Config, suite: Suite, filter: Option<string>, i: nat, st: State, fuel: nat)
    requires i < |suite.testCases| && !ShouldRun(filter, i + 1, suite.testCases[i].name)
    ensures RunCases(cfg, suite, filter, i, st, fuel) == RunCases(cfg, suite, filter, i + 1, st, fuel)
  {
  }

  /** One step of RunCases: a selected case runs, and its result follows
      those of the cases before it. */
  lemma CasesRun(cfg: Config, suite: Suite, filter: Option<string>, i: nat, st: State, fuel: nat, ok: bool, st1: State,
                 done: seq<CaseResult>, whole: (seq<CaseResult>, State))
    requires i < |suite.testCases| && ShouldRun(filter, i + 1, suite.testCases[i].name)
    requires (ok, st1) == Engine.RunTestCase(cfg, suite, suite.testCases[i], i + 1, st, fuel)
    requires var rest := RunCases(cfg, suite, filter, i, st, fuel); whole == (done + rest.0, rest.1)
    ensures var rest := RunCases(cfg, suite, filter, i + 1, st1, fuel);
      whole == ((done + [CaseResult(i + 1, ok)]) + rest.0, rest.1)
  {
    AppendAssoc(done, [CaseResult(i + 1, ok)], RunCases(cfg, suite, filter, i + 1, st1, fuel).0);
  }

  /** Recording one more case result adds its number to the failed ones
      exactly when it failed. */
  lemma {:induction false} FailedAppend(rs: seq<CaseResult>, r: CaseResult)
    ensures Failed(rs + [r]) == Failed(rs) + (if r.passed then [] else [r.num])
    decreases |rs|
  {
    if rs != [] {
      assert (rs + [r])[1..] == rs[1..] + [r];
      FailedAppend(rs[1..], r);
    }
  }
}
