/** Commands and stanzas, the reading of one command line (the first part
    of Parser.parse_command, shellspec.py:384-431) and its inverse
    Command.to_str (shellspec.py:248-262). */
module Commands {
  import opened Wrappers
  import opened Text
  import opened Tokenizing
  import opened Quoting

  datatype Kind = Shell | Assertion | DslAction | Comment

  datatype InteractionKind = Expect | SendLine

  /** One `$<` (expect) or `$>` (sendline) line of an interactive command. */
  datatype Interaction = Interaction(kind: InteractionKind, text: string)

  datatype Command = Command(
    kind: Kind,
    token: string,
    args: seq<string>,
    content: seq<string>,
    comment: string,
    negated: bool,
    lineNumber: nat,
    interactions: seq<Interaction>)

  /** A test case or a snippet: a header and the commands under it. */
  datatype Stanza = Stanza(name: string, commands: seq<Command>, lineNumber: nat)

  datatype ErrorKind = UnknownLine | UnknownCommand | InvalidCommand | UnknownPrefix | EmptyCommand

  /** The ValueError the parser raises, with the 1-based line it names. */
  datatype ParseError = ParseError(kind: ErrorKind, line: nat)

  /** The two-character prefix to_str writes for a non-comment command. */
  function Prefix(kind: Kind, negated: bool): string {
    match kind
    case Shell => if negated then "$!" else "$."
    case Assertion => if negated then "?!" else "?."
    case DslAction => ":."
    case Comment => ""
  }

  /** Command.to_str: the command line without its trailing comment. */
  function ToStr(c: Command): string {
    if c.kind == Comment then "# " + c.comment
    else JoinWith(" ", [Prefix(c.kind, c.negated), c.token] + c.args)
  }

  /** The kind a command line's first character selects. */
  function KindOf(c: char): Option<Kind> {
    if c == '$' then Some(Shell)
    else if c == '?' then Some(Assertion)
    else if c == ':' then Some(DslAction)
    else None
  }

  /** Splits `line` at the first " # ": the part before it and the trimmed
      comment after it, or the whole line and no comment. */
  function SplitComment(line: string): (string, string) {
    match IndexOf(line, " # ")
    case Some(k) => (line[..k], Trim(line[k + 3..]))
    case None => (line, "")
  }

  /** The command one line stands for, before any of the lines after it are
      read; `n` is its 1-based line number. */
  function ParseHead(line: string, n: nat): (r: Result<Command, ParseError>)
    ensures r.Err? ==> r.error.line == n
    ensures r.Err? ==> r.error.kind != UnknownLine && r.error.kind != UnknownCommand
    ensures r.Ok? ==> r.value.lineNumber == n && r.value.content == [] && r.value.interactions == []
  {
    if StartsWith(line, "#") then
      Ok(Command(Comment, "", [], [], Trim(line[1..]), false, n, []))
    else
      var (body, comment) := SplitComment(line);
      if |body| < 2 then Err(ParseError(InvalidCommand, n))
      else match KindOf(body[0])
        case None => Err(ParseError(UnknownPrefix, n))
        case Some(kind) =>
          var tokens := Tokens(Trim(body[2..]));
          if tokens == [] then Err(ParseError(EmptyCommand, n))
          else Ok(Command(kind, tokens[0], tokens[1..], [], comment, body[1] == '!', n, []))
  }

  /** The comment is cut at the first " # ": the body is everything before
      that occurrence, holds no " # " itself, and the comment is the rest
      of the line after the marker, trimmed. A line without the marker is
      all body. */
  lemma SplitCommentFacts(line: string)
    ensures var (body, comment) := SplitComment(line);
      (!IsSubstring(" # ", line) ==> body == line && comment == "") &&
      (IsSubstring(" # ", line) ==>
        |body| + 3 <= |line| && line[..|body| + 3] == body + " # " &&
        !IsSubstring(" # ", body) && comment == Trim(line[|body| + 3..]))
  {
    IndexOfFacts(line, " # ");
    match IndexOf(line, " # ") {
      case None =>
      case Some(k) =>
        var body := line[..k];
        forall i: nat | i <= |body|
          ensures !OccursAt(body, " # ", i)
        {
          if i + 3 <= |body| {
            assert body[i..i + 3] == line[i..i + 3];
            assert !OccursAt(line, " # ", i);
          }
        }
    }
  }

  /** A line that is not a `#` comment fails exactly when its body is
      shorter than two characters (InvalidCommand), starts with a character
      other than `$ ? :` (UnknownPrefix), or has no tokens after the prefix
      (EmptyCommand), checked in that order. Otherwise the first character
      gives the kind, a second character `!` the negation, the tokens of
      the trimmed rest the token and the arguments, and the part after the
      marker the comment. */
  lemma HeadForms(line: string, n: nat)
    requires !StartsWith(line, "#")
    ensures var (body, comment) := SplitComment(line); var r := ParseHead(line, n);
      (|body| < 2 ==> r == Err(ParseError(InvalidCommand, n))) &&
      (|body| >= 2 && KindOf(body[0]).None? ==> r == Err(ParseError(UnknownPrefix, n))) &&
      (|body| >= 2 && KindOf(body[0]).Some? && Tokens(Trim(body[2..])) == [] ==> r == Err(ParseError(EmptyCommand, n))) &&
      (r.Ok? <==> |body| >= 2 && KindOf(body[0]).Some? && Tokens(Trim(body[2..])) != []) &&
      (r.Ok? ==>
        r.value.kind == KindOf(body[0]).value && r.value.kind != Comment &&
        r.value.negated == (body[1] == '!') && r.value.comment == comment &&
        [r.value.token] + r.value.args == Tokens(Trim(body[2..])))
  {
  }

  /** A part of a command line that to_str can write and the parser reads
      back: a plain word that is not the comment marker. */
  predicate Writable(t: string) {
    PlainWord(t) && t != "#"
  }

  /** Words without whitespace, none of them "#", joined with spaces never
      contain the comment marker " # ". */
  lemma {:induction false} NoMarkerInJoin(parts: seq<string>)
    requires forall i :: 0 <= i < |parts| ==> parts[i] != [] && NoSpace(parts[i]) && parts[i] != "#"
    ensures !IsSubstring(" # ", JoinWith(" ", parts))
    decreases |parts|
  {
    var s := JoinWith(" ", parts);
    if |parts| <= 1 {
      assert NoSpace(s) by {
        if |parts| == 1 {
          assert s == parts[0];
        }
      }
      forall k: nat
        ensures !OccursAt(s, " # ", k)
      {
        if k + 3 <= |s| {
          assert !IsSpace(s[k]);
          assert s[k..k + 3][0] == s[k];
          assert s[k..k + 3] != " # ";
        }
      }
    } else {
      var p0 := parts[0];
      var p1 := parts[1];
      var rest := JoinWith(" ", parts[1..]);
      NoMarkerInJoin(parts[1..]);
      JoinStarts(" ", parts[1..]);
      assert s == p0 + " " + rest;
      forall k: nat
        ensures !OccursAt(s, " # ", k)
      {
        if k + 3 <= |s| {
          var w := s[k..k + 3];
          if k < |p0| {
            assert w[0] == p0[k] && !IsSpace(p0[k]);
          } else if k == |p0| {
            assert w[1] == p1[0];
            if |p1| >= 2 {
              assert w[2] == p1[1] && !IsSpace(p1[1]);
            } else {
              assert p1 == [p1[0]];
            }
          } else {
            var j := k - |p0| - 1;
            assert rest[j..j + 3] == w;
            assert !(j <= |rest| && OccursAt(rest, " # ", j));
          }
          assert w != " # ";
        }
      }
    }
  }

  /** to_str followed by parsing gives back the kind, the negation, the
      token and the arguments of a Shell or Assertion command whose parts
      are writable; the content, comment and interactions are not part of
      the written line. */
  lemma ToStrRoundTrip(c: Command, n: nat)
    requires c.kind == Shell || c.kind == Assertion
    requires Writable(c.token) && forall i :: 0 <= i < |c.args| ==> Writable(c.args[i])
    ensures ParseHead(ToStr(c), n) == Ok(Command(c.kind, c.token, c.args, [], "", c.negated, n, []))
  {
    WrittenLine(c, n);
  }

  /** A DslAction is always written with ":.", so parsing its to_str loses
      the negation. */
  lemma DslActionLosesNegation(c: Command, n: nat)
    requires c.kind == DslAction
    requires Writable(c.token) && forall i :: 0 <= i < |c.args| ==> Writable(c.args[i])
    ensures ParseHead(ToStr(c), n) == Ok(Command(DslAction, c.token, c.args, [], "", false, n, []))
  {
    WrittenLine(c, n);
  }

  /** A comment's to_str is read back as the same comment when its text has
      no whitespace at either end. */
  lemma CommentRoundTrip(c: Command, n: nat)
    requires c.kind == Comment && Trim(c.comment) == c.comment
    ensures ParseHead(ToStr(c), n) == Ok(Command(Comment, "", [], [], c.comment, false, n, []))
  {
    assert ("# " + c.comment)[1..] == " " + c.comment;
    if c.comment != [] {
      TrimFixed(c.comment);
      TrimSpaced(c.comment);
    }
  }

  /** How ParseHead reads a non-comment line with no trailing comment. */
  lemma {:induction false} ReadCommandLine(line: string, n: nat, kind: Kind, words: seq<string>)
    requires |line| >= 2 && line[0] != '#' && !IsSubstring(" # ", line)
    requires KindOf(line[0]) == Some(kind)
    requires Tokens(Trim(line[2..])) == words && words != []
    ensures ParseHead(line, n) == Ok(Command(kind, words[0], words[1..], [], "", line[1] == '!', n, []))
  {
    assert !StartsWith(line, "#");
    IndexOfFacts(line, " # ");
    assert SplitComment(line) == (line, "");
  }

  /** The prefix to_str writes selects the command's kind again, and its
      second character is '!' exactly when a negated Shell or Assertion
      command is written. */
  lemma PrefixRead(kind: Kind, negated: bool)
    requires kind != Comment
    ensures var p := Prefix(kind, negated);
      |p| == 2 && NoSpace(p) && KindOf(p[0]) == Some(kind) && p[0] != '#'
      && (p[1] == '!' <==> kind != DslAction && negated)
  {
  }

  /** The words after a two-character prefix and a space, as to_str writes
      them, hold no comment marker. */
  lemma {:induction false} WrittenNoMarker(p: string, words: seq<string>)
    requires |p| == 2 && NoSpace(p)
    requires words != [] && forall i :: 0 <= i < |words| ==> Writable(words[i])
    ensures !IsSubstring(" # ", p + " " + JoinWith(" ", words))
  {
    var parts := [p] + words;
    forall i | 0 <= i < |parts|
      ensures parts[i] != [] && NoSpace(parts[i]) && parts[i] != "#"
    {
      if i > 0 {
        assert parts[i] == words[i - 1];
      }
    }
    NoMarkerInJoin(parts);
    JoinCons(" ", p, words);
  }

  /** Stripping the space to_str writes before the words gives the joined
      words back. */
  lemma {:induction false} TrimWritten(words: seq<string>)
    requires words != [] && forall i :: 0 <= i < |words| ==> Writable(words[i])
    ensures Trim(" " + JoinWith(" ", words)) == JoinWith(" ", words)
  {
    JoinEnds(" ", words);
    TrimSpaced(JoinWith(" ", words));
  }

  /** The words after a two-character prefix and a space, as to_str writes
      them, are read back as written. */
  lemma {:induction false} WrittenTokens(p: string, words: seq<string>)
    requires |p| == 2
    requires words != [] && forall i :: 0 <= i < |words| ==> Writable(words[i])
    ensures Tokens(Trim((p + " " + JoinWith(" ", words))[2..])) == words
  {
    var tail := JoinWith(" ", words);
    assert (p + " " + tail)[2..] == " " + tail;
    TrimWritten(words);
    PlainRoundTrip(words);
  }

  lemma {:induction false} WrittenLine(c: Command, n: nat)
    requires c.kind != Comment
    requires Writable(c.token) && forall i :: 0 <= i < |c.args| ==> Writable(c.args[i])
    ensures ParseHead(ToStr(c), n) ==
      Ok(Command(c.kind, c.token, c.args, [], "", c.kind != DslAction && c.negated, n, []))
  {
    var p := Prefix(c.kind, c.negated);
    var words := [c.token] + c.args;
    var line := ToStr(c);
    assert line == p + " " + JoinWith(" ", words) by {
      assert [p, c.token] + c.args == [p] + words;
      JoinCons(" ", p, words);
    }
    assert forall i :: 0 <= i < |words| ==> Writable(words[i]) by {
      forall i | 0 <= i < |words|
        ensures Writable(words[i])
      {
        if i > 0 {
          assert words[i] == c.args[i - 1];
        }
      }
    }
    PrefixRead(c.kind, c.negated);
    WrittenNoMarker(p, words);
    WrittenTokens(p, words);
    ReadCommandLine(line, n, c.kind, words);
  }
}
