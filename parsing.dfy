/** The parser: how the lines of a spec file become test cases and named
    snippets (shellspec.py, classes Reader, TestSuite and Parser).

    The specification is a set of functions of the lines and a 1-based line
    cursor: CommandAt reads one command with its trailing interaction and
    content lines, CommandsFrom the commands of one stanza, and ParseFrom a
    whole file. The classes are the mutable objects of the source, and each
    of their methods is proved to compute exactly these functions. */
module Parsing {
  import opened Wrappers
  import opened Text
  import opened Tokenizing
  import opened Commands

  /** A `$<` (expect) or `$>` (sendline) line of an interactive command. */
  predicate IsInteractionLine(l: string) {
    StartsWith(l, "$<") || StartsWith(l, "$>")
  }

  /** A `..` content line. */
  predicate IsContentLine(l: string) {
    StartsWith(l, "..")
  }

  /** A line that starts a stanza: `>name` or `>@name`. */
  predicate IsHeader(l: string) {
    l != [] && l[0] == '>'
  }

  /** The first characters a command line inside a stanza may have. */
  predicate IsCommandStart(c: char) {
    c == '$' || c == '?' || c == ':' || c == '#'
  }

  /** The interaction a `$<`/`$>` line stands for; its text is all after
      the third character. */
  function InteractionOf(l: string): Interaction {
    Interaction(if StartsWith(l, "$<") then Expect else SendLine, Drop(l, 3))
  }

  /** The end of the run of interaction lines that starts at `i`. */
  function InteractionsEnd(lines: seq<string>, i: nat): (r: nat)
    requires i <= |lines|
    ensures i <= r <= |lines|
    ensures r < |lines| ==> !IsInteractionLine(lines[r])
    decreases |lines| - i
  {
    if i < |lines| && IsInteractionLine(lines[i]) then InteractionsEnd(lines, i + 1) else i
  }

  /** The interactions recorded from the run of interaction lines at `i`:
      a line with no text is read but not recorded. */
  function Interactions(lines: seq<string>, i: nat): (r: seq<Interaction>)
    requires i <= |lines|
    ensures |r| <= InteractionsEnd(lines, i) - i
    decreases |lines| - i
  {
    if i < |lines| && IsInteractionLine(lines[i]) then
      var x := InteractionOf(lines[i]);
      (if x.text == [] then [] else [x]) + Interactions(lines, i + 1)
    else []
  }

  /** One interaction line: it adds its interaction unless its text is
      empty. */
  lemma InteractionsStep(lines: seq<string>, i: nat)
    requires i < |lines| && IsInteractionLine(lines[i])
    ensures var x := InteractionOf(lines[i]);
      (x.text == [] ==> Interactions(lines, i) == Interactions(lines, i + 1)) &&
      (x.text != [] ==> Interactions(lines, i) == [x] + Interactions(lines, i + 1))
  {
    AppendNil(Interactions(lines, i + 1));
  }

  /** The end of the run of content lines that starts at `i`. */
  function ContentEnd(lines: seq<string>, i: nat): (r: nat)
    requires i <= |lines|
    ensures i <= r <= |lines|
    ensures r < |lines| ==> !IsContentLine(lines[r])
    decreases |lines| - i
  {
    if i < |lines| && IsContentLine(lines[i]) then ContentEnd(lines, i + 1) else i
  }

  /** The content read from the run of content lines at `i`: each line
      after its third character. */
  function Content(lines: seq<string>, i: nat): (r: seq<string>)
    requires i <= |lines|
    ensures |r| == ContentEnd(lines, i) - i
    decreases |lines| - i
  {
    if i < |lines| && IsContentLine(lines[i]) then [Drop(lines[i], 3)] + Content(lines, i + 1)
    else []
  }

  /** Parser.parse_command on the line at index `i` (line number i + 1): the
      command and the index of the first line after it. Only a Shell
      command reads interaction lines; every command but a comment then
      reads content lines. */
  function CommandAt(lines: seq<string>, i: nat): (r: Result<(Command, nat), ParseError>)
    requires i < |lines|
    ensures r.Ok? ==> i < r.value.1 <= |lines| && r.value.0.lineNumber == i + 1
    ensures r.Err? ==> r.error.line == i + 1
    ensures r.Err? ==> r.error.kind != UnknownLine && r.error.kind != UnknownCommand
  {
    match ParseHead(lines[i], i + 1)
    case Err(e) => Err(e)
    case Ok(c) =>
      if c.kind == Comment then Ok((c, i + 1))
      else
        var j := if c.kind == Shell then InteractionsEnd(lines, i + 1) else i + 1;
        var interactions := if c.kind == Shell then Interactions(lines, i + 1) else [];
        Ok((c.(content := Content(lines, j), interactions := interactions), ContentEnd(lines, j)))
  }

  /** CommandAt for a comment line: the command is the comment alone. */
  lemma CommandAtComment(lines: seq<string>, i: nat)
    requires i < |lines| && StartsWith(lines[i], "#")
    ensures CommandAt(lines, i) == Ok((Command(Comment, "", [], [], Trim(lines[i][1..]), false, i + 1, []), i + 1))
  {
  }

  /** CommandAt for a line that ParseHead reads as a command other than a
      comment: the lines after it add its interactions and its content. */
  lemma CommandAtHead(lines: seq<string>, i: nat, head: Command)
    requires i < |lines| && ParseHead(lines[i], i + 1) == Ok(head) && head.kind != Comment
    ensures var j := if head.kind == Shell then InteractionsEnd(lines, i + 1) else i + 1;
      var interactions := if head.kind == Shell then Interactions(lines, i + 1) else [];
      CommandAt(lines, i) == Ok((head.(content := Content(lines, j), interactions := interactions), ContentEnd(lines, j)))
  {
  }

  /** Parser._parse_commands_until_next_stanza from index `i`: the commands
      of a stanza, and the index of the header that ends it (or the end of
      the lines). */
  function CommandsFrom(lines: seq<string>, i: nat): (r: Result<(seq<Command>, nat), ParseError>)
    requires i <= |lines|
    ensures r.Ok? ==> i <= r.value.1 <= |lines| && (r.value.1 < |lines| ==> IsHeader(lines[r.value.1]))
    ensures r.Err? ==> i < r.error.line <= |lines|
    decreases |lines| - i, 1
  {
    if i == |lines| then Ok(([], i))
    else if IsBlank(lines[i]) then CommandsFrom(lines, i + 1)
    else if lines[i][0] == '>' then Ok(([], i))
    else if IsCommandStart(lines[i][0]) then CommandThenRest(lines, i)
    else Err(ParseError(UnknownCommand, i + 1))
  }

  /** The command at index `i` followed by the rest of its stanza. */
  function CommandThenRest(lines: seq<string>, i: nat): (r: Result<(seq<Command>, nat), ParseError>)
    requires i < |lines|
    ensures r.Ok? ==> i < r.value.1 <= |lines| && (r.value.1 < |lines| ==> IsHeader(lines[r.value.1]))
    ensures r.Err? ==> i < r.error.line <= |lines|
    decreases |lines| - i, 0
  {
    match CommandAt(lines, i)
    case Err(e) => Err(e)
    case Ok((c, j)) => Prepend([c], CommandsFrom(lines, j))
  }

  /** What a loop that has already collected `acc` yields when the rest is
      read by `r`. */
  function Prepend(acc: seq<Command>, r: Result<(seq<Command>, nat), ParseError>): (p: Result<(seq<Command>, nat), ParseError>)
    ensures p.Err? <==> r.Err?
    ensures p.Err? ==> p.error == r.error
    ensures p.Ok? ==> p.value.1 == r.value.1
  {
    if r.Ok? then Ok((acc + r.value.0, r.value.1)) else r
  }

  /** The test cases, in file order, and the snippets by name. */
  datatype Suite = Suite(testCases: seq<Stanza>, snippets: map<string, Stanza>)

  /** Parser.parse_stanza's effect on the suite: a `>@` header registers a
      snippet under its trimmed name, replacing one of the same name; any
      other header appends a test case. */
  function AddStanza(s: Suite, header: string, commands: seq<Command>, n: nat): Suite {
    if StartsWith(header, ">@") then
      var name := Trim(Drop(header, 2));
      s.(snippets := s.snippets[name := Stanza(name, commands, n)])
    else
      s.(testCases := s.testCases + [Stanza(Trim(Drop(header, 1)), commands, n)])
  }

  /** Parser.parse from index `i`, with `s` read so far. */
  function ParseFrom(lines: seq<string>, i: nat, s: Suite): (r: Result<Suite, ParseError>)
    requires i <= |lines|
    ensures r.Err? ==> i < r.error.line <= |lines|
    decreases |lines| - i
  {
    if i == |lines| then Ok(s)
    else if IsBlank(lines[i]) then ParseFrom(lines, i + 1, s)
    else if lines[i][0] == '>' then
      match CommandsFrom(lines, i + 1)
      case Err(e) => Err(e)
      case Ok((cs, k)) => ParseFrom(lines, k, AddStanza(s, lines[i], cs, i + 1))
    else if StartsWith(lines[i], "#") then ParseFrom(lines, i + 1, s)
    else Err(ParseError(UnknownLine, i + 1))
  }

  /** Parsing a whole file. */
  function Parse(lines: seq<string>): Result<Suite, ParseError> {
    ParseFrom(lines, 0, Suite([], map[]))
  }

  /** Content lines are read in order, each after its third character. */
  lemma {:induction false} ContentLines(lines: seq<string>, i: nat)
    requires i <= |lines|
    ensures forall k :: i <= k < ContentEnd(lines, i) ==>
      IsContentLine(lines[k]) && Content(lines, i)[k - i] == Drop(lines[k], 3)
    decreases |lines| - i
  {
    if i < |lines| && IsContentLine(lines[i]) {
      ContentLines(lines, i + 1);
      var c := Content(lines, i);
      assert c == [Drop(lines[i], 3)] + Content(lines, i + 1);
    }
  }

  /** An interaction line with no text is not recorded. */
  lemma {:induction false} InteractionTexts(lines: seq<string>, i: nat)
    requires i <= |lines|
    ensures forall x :: x in Interactions(lines, i) ==> x.text != []
    decreases |lines| - i
  {
    if i < |lines| && IsInteractionLine(lines[i]) {
      InteractionTexts(lines, i + 1);
    }
  }

  /** When every line of the run has text, each line is recorded, in order. */
  lemma {:induction false} InteractionsInOrder(lines: seq<string>, i: nat)
    requires i <= |lines|
    requires forall k :: i <= k < InteractionsEnd(lines, i) ==> |lines[k]| > 3
    ensures |Interactions(lines, i)| == InteractionsEnd(lines, i) - i
    ensures forall k :: i <= k < InteractionsEnd(lines, i) ==> Interactions(lines, i)[k - i] == InteractionOf(lines[k])
    decreases |lines| - i
  {
    if i < |lines| && IsInteractionLine(lines[i]) {
      InteractionsInOrder(lines, i + 1);
      assert InteractionOf(lines[i]).text != [];
      assert Interactions(lines, i) == [InteractionOf(lines[i])] + Interactions(lines, i + 1);
    }
  }

  /** Only a Shell command reads the interaction lines after it; after any
      other command such a line starts a command of its own. */
  lemma OnlyShellInteracts(lines: seq<string>, i: nat)
    requires i + 1 < |lines| && IsInteractionLine(lines[i + 1])
    requires CommandAt(lines, i).Ok? && CommandAt(lines, i).value.0.kind != Shell
    ensures CommandAt(lines, i).value.1 == i + 1
    ensures CommandAt(lines, i).value.0.interactions == []
  {
  }

  lemma PrependStep(acc: seq<Command>, c: Command, r: Result<(seq<Command>, nat), ParseError>)
    ensures Prepend(acc, Prepend([c], r)) == Prepend(acc + [c], r)
  {
    if r.Ok? {
      AppendAssoc(acc, [c], r.value.0);
    }
  }

  lemma PrependNothing(acc: seq<Command>, r: Result<(seq<Command>, nat), ParseError>)
    ensures Prepend([], r) == r
    ensures r.Ok? && r.value.0 == [] ==> Prepend(acc, r) == Ok((acc, r.value.1))
  {
    if r.Ok? {
      AppendNil(r.value.0);
      AppendNil(acc);
    }
  }

  /** One step of CommandsFrom at a command line. */
  lemma CommandsStep(lines: seq<string>, i: nat)
    requires i < |lines| && !IsBlank(lines[i]) && IsCommandStart(lines[i][0])
    ensures var c := CommandAt(lines, i);
      (c.Err? ==> CommandsFrom(lines, i) == Err(c.error)) &&
      (c.Ok? ==> CommandsFrom(lines, i) == Prepend([c.value.0], CommandsFrom(lines, c.value.1)))
  {
  }

  /** The name and 1-based line of every `>name` header from index `i`
      on, in file order (a `>@` header is a snippet's). */
  function CaseHeaders(lines: seq<string>, i: nat): seq<(string, nat)>
    requires i <= |lines|
    decreases |lines| - i
  {
    if i == |lines| then []
    else if IsHeader(lines[i]) && !StartsWith(lines[i], ">@") then
      [(Trim(Drop(lines[i], 1)), i + 1)] + CaseHeaders(lines, i + 1)
    else CaseHeaders(lines, i + 1)
  }

  /** The names of the `>@name` headers from index `i` on. */
  function SnippetNames(lines: seq<string>, i: nat): set<string>
    requires i <= |lines|
    decreases |lines| - i
  {
    if i == |lines| then {}
    else if StartsWith(lines[i], ">@") then {Trim(Drop(lines[i], 2))} + SnippetNames(lines, i + 1)
    else SnippetNames(lines, i + 1)
  }

  /** The 1-based line of the last `>@name` header from index `i` on: no
      later line is such a header, and None means no line from `i` on is. */
  function LastSnippet(lines: seq<string>, i: nat, name: string): (r: Option<nat>)
    requires i <= |lines|
    ensures r.Some? ==>
      i < r.value <= |lines| && StartsWith(lines[r.value - 1], ">@") && Trim(Drop(lines[r.value - 1], 2)) == name
    ensures r.Some? ==>
      forall j :: r.value <= j < |lines| ==> !(StartsWith(lines[j], ">@") && Trim(Drop(lines[j], 2)) == name)
    ensures r.None? ==>
      forall j :: i <= j < |lines| ==> !(StartsWith(lines[j], ">@") && Trim(Drop(lines[j], 2)) == name)
    decreases |lines| - i
  {
    if i == |lines| then None
    else match LastSnippet(lines, i + 1, name)
      case Some(n) => Some(n)
      case None =>
        if StartsWith(lines[i], ">@") && Trim(Drop(lines[i], 2)) == name then Some(i + 1) else None
  }

  /** The name and line of each stanza. */
  function Heads(ts: seq<Stanza>): (r: seq<(string, nat)>)
    ensures |r| == |ts|
    decreases |ts|
  {
    if ts == [] then [] else [(ts[0].name, ts[0].lineNumber)] + Heads(ts[1..])
  }

  lemma {:induction false} HeadsAppend(ts: seq<Stanza>, t: Stanza)
    ensures Heads(ts + [t]) == Heads(ts) + [(t.name, t.lineNumber)]
    decreases |ts|
  {
    if ts != [] {
      assert (ts + [t])[1..] == ts[1..] + [t];
      HeadsAppend(ts[1..], t);
    }
  }

  /** No stanza header among the lines from `i` up to `j`. */
  predicate NoHeaders(lines: seq<string>, i: nat, j: nat)
    requires i <= j <= |lines|
  {
    forall k :: i <= k < j ==> !IsHeader(lines[k])
  }

  lemma {:induction false} SkipNoHeaders(lines: seq<string>, i: nat, j: nat)
    requires i <= j <= |lines| && NoHeaders(lines, i, j)
    ensures CaseHeaders(lines, i) == CaseHeaders(lines, j)
    ensures SnippetNames(lines, i) == SnippetNames(lines, j)
    ensures forall name :: LastSnippet(lines, i, name) == LastSnippet(lines, j, name)
    decreases j - i
  {
    if i < j {
      SkipNoHeaders(lines, i + 1, j);
    }
  }

  /** A `>@` line is a header, and a blank line is not. */
  lemma HeaderShape(l: string)
    ensures StartsWith(l, ">@") ==> IsHeader(l)
    ensures IsBlank(l) ==> !IsHeader(l)
  {
    if |l| >= 2 {
      assert l[..2][0] == l[0];
    }
  }

  /** An interaction or content line is not a header. */
  lemma TrailingNotHeader(l: string)
    requires IsInteractionLine(l) || IsContentLine(l)
    ensures !IsHeader(l)
  {
    assert l[..2][0] == l[0];
  }

  /** The lines one command reads hold no header. */
  lemma CommandNoHeaders(lines: seq<string>, i: nat)
    requires i < |lines| && lines[i] != [] && IsCommandStart(lines[i][0])
    requires CommandAt(lines, i).Ok?
    ensures NoHeaders(lines, i, CommandAt(lines, i).value.1)
  {
    var j := InteractionsEnd(lines, i + 1);
    var e := CommandAt(lines, i).value.1;
    assert e == i + 1 || e == ContentEnd(lines, i + 1) || e == ContentEnd(lines, j);
    InteractionRun(lines, i + 1);
    ContentLines(lines, j);
    ContentLines(lines, i + 1);
    forall k | i < k < e
      ensures !IsHeader(lines[k])
    {
      TrailingNotHeader(lines[k]);
    }
  }

  lemma {:induction false} InteractionRun(lines: seq<string>, i: nat)
    requires i <= |lines|
    ensures forall k :: i <= k < InteractionsEnd(lines, i) ==> IsInteractionLine(lines[k])
    decreases |lines| - i
  {
    if i < |lines| && IsInteractionLine(lines[i]) {
      InteractionRun(lines, i + 1);
    }
  }

  /** The commands of a stanza end at the next header: none is read. */
  lemma {:induction false} CommandsNoHeaders(lines: seq<string>, i: nat)
    requires i <= |lines| && CommandsFrom(lines, i).Ok?
    ensures NoHeaders(lines, i, CommandsFrom(lines, i).value.1)
    decreases |lines| - i
  {
    if i < |lines| {
      if IsBlank(lines[i]) {
        CommandsNoHeaders(lines, i + 1);
      } else if lines[i][0] != '>' {
        var j := CommandAt(lines, i).value.1;
        CommandNoHeaders(lines, i);
        CommandsNoHeaders(lines, j);
      }
    }
  }

  /** A parse that succeeds from `i` adds a test case for each `>name`
      header, with its name and line, in file order, and a snippet for
      each `>@name` header. */
  lemma {:induction false} ParseHeaders(lines: seq<string>, i: nat, s: Suite)
    requires i <= |lines| && ParseFrom(lines, i, s).Ok?
    ensures var r := ParseFrom(lines, i, s).value;
      Heads(r.testCases) == Heads(s.testCases) + CaseHeaders(lines, i) &&
      r.snippets.Keys == s.snippets.Keys + SnippetNames(lines, i)
    decreases |lines| - i
  {
    if i == |lines| {
    } else if IsBlank(lines[i]) || lines[i][0] != '>' {
      HeaderShape(lines[i]);
      ParseHeaders(lines, i + 1, s);
    } else {
      var k := CommandsFrom(lines, i + 1).value.1;
      var cs := CommandsFrom(lines, i + 1).value.0;
      var s' := AddStanza(s, lines[i], cs, i + 1);
      CommandsNoHeaders(lines, i + 1);
      SkipNoHeaders(lines, i + 1, k);
      ParseHeaders(lines, k, s');
      if !StartsWith(lines[i], ">@") {
        HeadsAppend(s.testCases, Stanza(Trim(Drop(lines[i], 1)), cs, i + 1));
        AppendAssoc(Heads(s.testCases), [(Trim(Drop(lines[i], 1)), i + 1)], CaseHeaders(lines, k));
      }
    }
  }

  /** A parse that succeeds from `i` keeps, under each name, the snippet
      of the last `>@` header of that name, holding the commands read after
      that header, and otherwise what `s` had. */
  lemma {:induction false} ParseSnippetLines(lines: seq<string>, i: nat, s: Suite, name: string)
    requires i <= |lines| && ParseFrom(lines, i, s).Ok?
    ensures var r := ParseFrom(lines, i, s).value; var last := LastSnippet(lines, i, name);
      (last.Some? ==>
        name in r.snippets && CommandsFrom(lines, last.value).Ok? &&
        r.snippets[name] == Stanza(name, CommandsFrom(lines, last.value).value.0, last.value)) &&
      (last.None? ==>
        (name in r.snippets <==> name in s.snippets) &&
        (name in s.snippets ==> r.snippets[name] == s.snippets[name]))
    decreases |lines| - i
  {
    if i == |lines| {
    } else if IsBlank(lines[i]) || lines[i][0] != '>' {
      HeaderShape(lines[i]);
      ParseSnippetLines(lines, i + 1, s, name);
    } else {
      var k := CommandsFrom(lines, i + 1).value.1;
      var cs := CommandsFrom(lines, i + 1).value.0;
      CommandsNoHeaders(lines, i + 1);
      SkipNoHeaders(lines, i + 1, k);
      ParseSnippetLines(lines, k, AddStanza(s, lines[i], cs, i + 1), name);
    }
  }

  /** What a parse error says about the line it names: an unknown line or
      an unknown command is a line that is not blank, not a header, and does
      not start as the parser expects at that point. */
  predicate ErrorShape(lines: seq<string>, e: ParseError) {
    0 < e.line <= |lines| &&
    var l := lines[e.line - 1];
    (e.kind == UnknownLine ==> !IsBlank(l) && l[0] != '>' && l[0] != '#') &&
    (e.kind == UnknownCommand ==> !IsBlank(l) && l[0] != '>' && !IsCommandStart(l[0]))
  }

  /** A parse that fails names a line of the file; an unknown line or an
      unknown command is a line that is not blank, not a header, and does not
      start as the parser expects at that point. */
  lemma {:induction false} ParseErrorLine(lines: seq<string>, i: nat, s: Suite)
    requires i <= |lines| && ParseFrom(lines, i, s).Err?
    ensures ErrorShape(lines, ParseFrom(lines, i, s).error)
    decreases |lines| - i
  {
    if IsBlank(lines[i]) || lines[i][0] != '>' {
      if IsBlank(lines[i]) || StartsWith(lines[i], "#") {
        ParseErrorLine(lines, i + 1, s);
      }
    } else if CommandsFrom(lines, i + 1).Err? {
      CommandErrorLine(lines, i + 1);
    } else {
      var r := CommandsFrom(lines, i + 1).value;
      ParseErrorLine(lines, r.1, AddStanza(s, lines[i], r.0, i + 1));
    }
  }

  lemma {:induction false} CommandErrorLine(lines: seq<string>, i: nat)
    requires i <= |lines| && CommandsFrom(lines, i).Err?
    ensures CommandsFrom(lines, i).error.kind != UnknownLine
    ensures ErrorShape(lines, CommandsFrom(lines, i).error)
    decreases |lines| - i
  {
    if IsBlank(lines[i]) {
      CommandErrorLine(lines, i + 1);
      assert CommandsFrom(lines, i) == CommandsFrom(lines, i + 1);
    } else if IsCommandStart(lines[i][0]) {
      assert CommandsFrom(lines, i) == CommandThenRest(lines, i);
      var c := CommandAt(lines, i);
      if c.Ok? {
        CommandErrorLine(lines, c.value.1);
        assert CommandsFrom(lines, i).error == CommandsFrom(lines, c.value.1).error;
      }
    } else {
      assert CommandsFrom(lines, i).error == ParseError(UnknownCommand, i + 1);
    }
  }

  /** A stanza holds the commands read after its header, which is on its
      line: the commands start on the next line. */
  predicate StanzaRead(lines: seq<string>, t: Stanza) {
    0 < t.lineNumber <= |lines| && CommandsFrom(lines, t.lineNumber).Ok? &&
    t.commands == CommandsFrom(lines, t.lineNumber).value.0
  }

  predicate StanzasRead(lines: seq<string>, ts: seq<Stanza>) {
    forall k :: 0 <= k < |ts| ==> StanzaRead(lines, ts[k])
  }

  /** Every test case a parse from `i` adds holds the commands read after
      its header. */
  lemma {:induction false} ParseCaseBodies(lines: seq<string>, i: nat, s: Suite)
    requires i <= |lines| && ParseFrom(lines, i, s).Ok?
    requires StanzasRead(lines, s.testCases)
    ensures StanzasRead(lines, ParseFrom(lines, i, s).value.testCases)
    decreases |lines| - i
  {
    if i == |lines| {
    } else if IsBlank(lines[i]) || lines[i][0] != '>' {
      ParseCaseBodies(lines, i + 1, s);
    } else {
      var k := CommandsFrom(lines, i + 1).value.1;
      var cs := CommandsFrom(lines, i + 1).value.0;
      var s' := AddStanza(s, lines[i], cs, i + 1);
      if !StartsWith(lines[i], ">@") {
        var t := Stanza(Trim(Drop(lines[i], 1)), cs, i + 1);
        assert s'.testCases == s.testCases + [t];
        assert StanzaRead(lines, t);
        forall j | 0 <= j < |s'.testCases|
          ensures StanzaRead(lines, s'.testCases[j])
        {
          if j < |s.testCases| {
            assert s'.testCases[j] == s.testCases[j];
          }
        }
      }
      ParseCaseBodies(lines, k, s');
    }
  }

  /** Every test case and every snippet of a parsed file holds exactly the
      commands read after its header. */
  lemma SuiteBodies(lines: seq<string>)
    requires Parse(lines).Ok?
    ensures StanzasRead(lines, Parse(lines).value.testCases)
    ensures forall name :: name in Parse(lines).value.snippets ==> StanzaRead(lines, Parse(lines).value.snippets[name])
  {
    var empty := Suite([], map[]);
    ParseCaseBodies(lines, 0, empty);
    forall name | name in Parse(lines).value.snippets
      ensures StanzaRead(lines, Parse(lines).value.snippets[name])
    {
      ParseSnippetLines(lines, 0, empty, name);
    }
  }

  /** The test cases of a parsed file are its `>name` headers, in order,
      and its snippets are named by its `>@name` headers. */
  lemma SuiteHeaders(lines: seq<string>)
    requires Parse(lines).Ok?
    ensures Heads(Parse(lines).value.testCases) == CaseHeaders(lines, 0)
    ensures Parse(lines).value.snippets.Keys == SnippetNames(lines, 0)
  {
    ParseHeaders(lines, 0, Suite([], map[]));
  }

  /** The line cursor over a spec file already split into lines. */
  class Reader {
    const lines: seq<string>
    var position: nat

    ghost predicate Valid()
      reads this
    {
      position <= |lines|
    }

    constructor (lines: seq<string>)
      ensures Valid() && this.lines == lines && position == 0
    {
      this.lines := lines;
      position := 0;
    }

    predicate IsEof()
      reads this
    {
      position >= |lines|
    }

    /** The next line, which must exist. */
    function Peek(): string
      reads this
      requires Valid() && !IsEof()
    {
      lines[position]
    }

    method Consume() returns (line: string)
      requires Valid() && !IsEof()
      modifies this
      ensures Valid() && line == lines[old(position)] && position == old(position) + 1
    {
      line := lines[position];
      position := position + 1;
    }

    /** The 1-based number of the next line. */
    function LineNumber(): nat
      reads this
    {
      position + 1
    }
  }

  /** The parsed test cases, in file order, and the snippets by name. */
  class TestSuite {
    var testCases: seq<Stanza>
    var snippets: map<string, Stanza>

    constructor ()
      ensures testCases == [] && snippets == map[]
    {
      testCases := [];
      snippets := map[];
    }

    function Value(): Suite
      reads this
    {
      Suite(testCases, snippets)
    }

    method AddTestCase(stanza: Stanza)
      modifies this
      ensures testCases == old(testCases) + [stanza] && snippets == old(snippets)
    {
      testCases := testCases + [stanza];
    }

    /** Registers a snippet; a later one of the same name replaces it. */
    method AddSnippet(stanza: Stanza)
      modifies this
      ensures snippets == old(snippets)[stanza.name := stanza] && testCases == old(testCases)
      ensures ResolveSnippet(stanza.name) == Some(stanza)
      ensures forall name :: name != stanza.name ==> ResolveSnippet(name) == old(ResolveSnippet(name))
    {
      snippets := snippets[stanza.name := stanza];
    }

    /** The snippet registered under `name`, if any. */
    function ResolveSnippet(name: string): (r: Option<Stanza>)
      reads this
      ensures r.Some? <==> name in snippets
      ensures r.Some? ==> r.value == snippets[name]
    {
      if name in snippets then Some(snippets[name]) else None
    }
  }

  /** The parser: a line cursor and the suite it fills. */
  class Parser {
    const reader: Reader
    const suite: TestSuite

    ghost predicate Valid()
      reads this, reader
    {
      reader.Valid()
    }

    constructor (lines: seq<string>)
      ensures Valid() && fresh(reader) && fresh(suite)
      ensures reader.lines == lines && reader.position == 0
      ensures suite.testCases == [] && suite.snippets == map[]
    {
      reader := new Reader(lines);
      suite := new TestSuite();
    }

    /** Reads the whole file from the cursor on. */
    method Parse() returns (r: Result<TestSuite, ParseError>)
      requires Valid()
      modifies reader, suite
      ensures Valid()
      ensures r.Ok? ==> r.value == suite
      ensures ParseFrom(reader.lines, old(reader.position), old(suite.Value())) ==
        (if r.Ok? then Ok(suite.Value()) else Err(r.error))
    {
      ghost var start := reader.position;
      ghost var s0 := suite.Value();
      while !reader.IsEof()
        invariant Valid()
        invariant ParseFrom(reader.lines, start, s0) == ParseFrom(reader.lines, reader.position, suite.Value())
        decreases |reader.lines| - reader.position
      {
        var line := reader.Peek();
        if IsBlank(line) {
          var _ := reader.Consume();
        } else if line[0] == '>' {
          var e := ParseStanza();
          if e.Some? {
            return Err(e.value);
          }
        } else if StartsWith(line, "#") {
          var _ := reader.Consume();
        } else {
          return Err(ParseError(UnknownLine, reader.LineNumber()));
        }
      }
      return Ok(suite);
    }

    /** Reads a header line and the commands under it, and adds the stanza
      to the suite. */
    method ParseStanza() returns (e: Option<ParseError>)
      requires Valid() && !reader.IsEof()
      modifies reader, suite
      ensures Valid()
      ensures var i := old(reader.position); var r := CommandsFrom(reader.lines, i + 1);
        (r.Err? ==> e == Some(r.error)) &&
        (r.Ok? ==>
          e.None? && reader.position == r.value.1 &&
          suite.Value() == AddStanza(old(suite.Value()), reader.lines[i], r.value.0, i + 1))
    {
      ghost var s0 := suite.Value();
      ghost var sn := suite.snippets;
      ghost var i := reader.position;
      var n := reader.LineNumber();
      var header := reader.Consume();
      assert suite.snippets == sn;
      var commands := ParseCommandsUntilNextStanza();
      assert suite.snippets == sn;
      ghost var r := CommandsFrom(reader.lines, i + 1);
      if commands.Err? {
        assert r.Err?;
        return Some(commands.error);
      }
      assert r == Ok((commands.value, reader.position));
      assert header == reader.lines[i];
      if StartsWith(header, ">@") {
        var stanza := Stanza(Trim(Drop(header, 2)), commands.value, n);
        suite.AddSnippet(stanza);
        assert suite.Value() == s0.(snippets := s0.snippets[stanza.name := stanza]);
      } else {
        var stanza := Stanza(Trim(Drop(header, 1)), commands.value, n);
        assert suite.testCases == s0.testCases && suite.snippets == s0.snippets;
        suite.AddTestCase(stanza);
        assert suite.testCases == s0.testCases + [stanza];
        assert suite.Value() == s0.(testCases := s0.testCases + [stanza]);
      }
      assert suite.Value() == AddStanza(s0, header, commands.value, n);
      return None;
    }

    /** Reads commands up to the next header or the end of the file. */
    method ParseCommandsUntilNextStanza() returns (r: Result<seq<Command>, ParseError>)
      requires Valid()
      modifies reader
      ensures Valid()
      ensures CommandsFrom(reader.lines, old(reader.position)) ==
        (if r.Ok? then Ok((r.value, reader.position)) else Err(r.error))
    {
      ghost var start := reader.position;
      var commands := [];
      PrependNothing(commands, CommandsFrom(reader.lines, start));
      while !reader.IsEof()
        invariant Valid()
        invariant CommandsFrom(reader.lines, start) == Prepend(commands, CommandsFrom(reader.lines, reader.position))
        decreases |reader.lines| - reader.position
      {
        var line := reader.Peek();
        if IsBlank(line) {
          var _ := reader.Consume();
          continue;
        }
        if line[0] == '>' {
          break;
        }
        if IsCommandStart(line[0]) {
          CommandsStep(reader.lines, reader.position);
          var c := ParseCommand();
          if c.Err? {
            return Err(c.error);
          }
          PrependStep(commands, c.value, CommandsFrom(reader.lines, reader.position));
          commands := commands + [c.value];
        } else {
          return Err(ParseError(UnknownCommand, reader.LineNumber()));
        }
      }
      PrependNothing(commands, CommandsFrom(reader.lines, reader.position));
      return Ok(commands);
    }

    /** Reads one command line and the interaction and content lines that
      follow it. */
    method ParseCommand() returns (r: Result<Command, ParseError>)
      requires Valid() && !reader.IsEof()
      modifies reader
      ensures Valid()
      ensures r.Ok? ==> CommandAt(reader.lines, old(reader.position)) == Ok((r.value, reader.position))
      ensures r.Err? ==> CommandAt(reader.lines, old(reader.position)) == Err(r.error)
    {
      ghost var i := reader.position;
      var lineNumber := reader.LineNumber();
      var line := reader.Consume();
      assert lineNumber == i + 1 && line == reader.lines[i];
      if StartsWith(line, "#") {
        CommandAtComment(reader.lines, i);
        return Ok(Command(Comment, "", [], [], Trim(line[1..]), false, lineNumber, []));
      }
      var (body, comment) := SplitComment(line);
      if |body| < 2 {
        return Err(ParseError(InvalidCommand, lineNumber));
      }
      var negated := body[1] == '!';
      var kind;
      match KindOf(body[0]) {
        case None =>
          return Err(ParseError(UnknownPrefix, lineNumber));
        case Some(k) =>
          kind := k;
      }
      var tokenizer := new Tokenizer(Trim(body[2..]));
      var tokens := tokenizer.Tokenize();
      if tokens == [] {
        return Err(ParseError(EmptyCommand, lineNumber));
      }
      ghost var head := Command(kind, tokens[0], tokens[1..], [], comment, negated, lineNumber, []);
      assert ParseHead(line, lineNumber) == Ok(head);
      CommandAtHead(reader.lines, i, head);
      ghost var j := if kind == Shell then InteractionsEnd(reader.lines, i + 1) else i + 1;
      var interactions := [];
      if kind == Shell {
        interactions := ReadInteractions();
      }
      assert reader.position == j;
      var content := ReadContent();
      assert content == Content(reader.lines, j) && reader.position == ContentEnd(reader.lines, j);
      assert interactions == if kind == Shell then Interactions(reader.lines, i + 1) else [];
      return Ok(Command(kind, tokens[0], tokens[1..], content, comment, negated, lineNumber, interactions));
    }

    /** The loop of parse_command that reads the `$<`/`$>` lines after a
      Shell command. */
    method ReadInteractions() returns (interactions: seq<Interaction>)
      requires Valid()
      modifies reader
      ensures Valid()
      ensures var i := old(reader.position);
        interactions == Interactions(reader.lines, i) && reader.position == InteractionsEnd(reader.lines, i)
    {
      var lines := reader.lines;
      ghost var first := reader.position;
      interactions := [];
      while !reader.IsEof() && IsInteractionLine(reader.Peek())
        invariant Valid() && first <= reader.position
        invariant InteractionsEnd(lines, reader.position) == InteractionsEnd(lines, first)
        invariant interactions + Interactions(lines, reader.position) == Interactions(lines, first)
        decreases |lines| - reader.position
      {
        InteractionsStep(lines, reader.position);
        var l := reader.Consume();
        var action := if StartsWith(l, "$<") then Expect else SendLine;
        var text := Drop(l, 3);
        assert Interaction(action, text) == InteractionOf(l);
        if text != [] {
          AppendAssoc(interactions, [Interaction(action, text)], Interactions(lines, reader.position));
          interactions := interactions + [Interaction(action, text)];
        }
      }
    }

    /** The loop of parse_command that reads the `..` lines after a
      command. */
    method ReadContent() returns (content: seq<string>)
      requires Valid()
      modifies reader
      ensures Valid()
      ensures var i := old(reader.position);
        content == Content(reader.lines, i) && reader.position == ContentEnd(reader.lines, i)
    {
      var lines := reader.lines;
      ghost var first := reader.position;
      content := [];
      while !reader.IsEof() && IsContentLine(reader.Peek())
        invariant Valid() && first <= reader.position
        invariant ContentEnd(lines, reader.position) == ContentEnd(lines, first)
        invariant content + Content(lines, reader.position) == Content(lines, first)
        decreases |lines| - reader.position
      {
        var l := reader.Consume();
        AppendAssoc(content, [Drop(l, 3)], Content(lines, reader.position));
        content := content + [Drop(l, 3)];
      }
    }
  }
}
