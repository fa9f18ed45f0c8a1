/** The quote-aware tokenizer that splits the text after a command prefix
    into tokens (shellspec.py, class Tokenizer).

    The specification is a set of functions of the line and a read index:
    SpaceEnd says where skip_whitespace stops, WordFrom and QuotedFrom read
    an unquoted and the inside of a quoted token, and LexFrom gives the
    whole token sequence from an index on, each token tagged with whether it
    was quoted. The class Tokenizer is the cursor of the source, and its
    methods are proved to compute exactly these functions. */
module Tokenizing {
  import opened Wrappers
  import opened Text

  predicate IsQuote(c: char) {
    c == '"' || c == '\''
  }

  /** Where a run of whitespace that starts at `i` ends. */
  function SpaceEnd(line: string, i: nat): (r: nat)
    requires i <= |line|
    ensures i <= r <= |line|
    ensures r < |line| ==> !IsSpace(line[r])
    decreases |line| - i
  {
    if i < |line| && IsSpace(line[i]) then SpaceEnd(line, i + 1) else i
  }

  /** What reading a token yields: its text, and the index just past it
      (past the closing quote of a quoted token when there is one). */
  datatype Scan = Scan(text: string, end: nat)

  /** Reads the inside of a token quoted with `q`, from index `i`, just after
      the opening quote. A backslash before a backslash or before `q` stands
      for that character; before any other character it is kept with it; a
      backslash at the very end stands for itself. Reading stops after the
      closing quote or at the end of the line, which is not an error. */
  function QuotedFrom(line: string, i: nat, q: char): (r: Scan)
    requires i <= |line|
    ensures i <= r.end <= |line|
    ensures i < |line| ==> i < r.end
    decreases |line| - i
  {
    if i == |line| then Scan("", i)
    else if line[i] == '\\' then
      if i + 1 == |line| then Scan("\\", i + 1)
      else
        var r := QuotedFrom(line, i + 2, q);
        var unit := if line[i + 1] == '\\' || line[i + 1] == q then [line[i + 1]] else ['\\', line[i + 1]];
        Scan(unit + r.text, r.end)
    else if line[i] == q then Scan("", i + 1)
    else
      var r := QuotedFrom(line, i + 1, q);
      Scan([line[i]] + r.text, r.end)
  }

  /** Reads an unquoted run from index `i`: everything up to the next
      whitespace or the end of the line. */
  function WordFrom(line: string, i: nat): (r: Scan)
    requires i <= |line|
    ensures i <= r.end <= |line| && |r.text| == r.end - i
    ensures i < |line| && !IsSpace(line[i]) ==> i < r.end
    decreases |line| - i
  {
    if i < |line| && !IsSpace(line[i]) then
      var r := WordFrom(line, i + 1);
      Scan([line[i]] + r.text, r.end)
    else Scan("", i)
  }

  /** The run WordFrom reads is the slice of the line up to where it stops,
      and it stops at whitespace or at the end of the line. */
  lemma {:induction false} WordFromSlice(line: string, i: nat)
    requires i <= |line|
    ensures var r := WordFrom(line, i);
      r.text == line[i..r.end] && NoSpace(r.text) && (r.end < |line| ==> IsSpace(line[r.end]))
    decreases |line| - i
  {
    if i < |line| && !IsSpace(line[i]) {
      WordFromSlice(line, i + 1);
      var r := WordFrom(line, i + 1);
      var t := [line[i]] + r.text;
      forall k | 0 <= k < |t|
        ensures t[k] == line[i..r.end][k]
      {
        if k > 0 {
          assert t[k] == r.text[k - 1] == line[i + 1..r.end][k - 1];
        }
      }
      assert t == line[i..r.end];
      forall k | 0 <= k < |t|
        ensures !IsSpace(t[k])
      {
        if k > 0 {
          assert t[k] == r.text[k - 1];
        }
      }
    }
  }

  /** A token, and whether it came from a quoted or an unquoted run. */
  datatype Lexeme = Word(text: string) | Quoted(quote: char, text: string)

  /** The tokens of the line from index `i` on, in order. */
  function LexFrom(line: string, i: nat): seq<Lexeme>
    requires i <= |line|
    decreases |line| - i
  {
    var k := SpaceEnd(line, i);
    if k == |line| then []
    else if IsQuote(line[k]) then
      var b := QuotedFrom(line, k + 1, line[k]);
      [Quoted(line[k], b.text)] + LexFrom(line, b.end)
    else
      var w := WordFrom(line, k);
      [Word(w.text)] + LexFrom(line, w.end)
  }

  /** Every unquoted token is non-empty and holds no whitespace. */
  predicate WordsShaped(ls: seq<Lexeme>) {
    forall k :: 0 <= k < |ls| && ls[k].Word? ==> ls[k].text != [] && NoSpace(ls[k].text)
  }

  lemma {:induction false} LexWordsShaped(line: string, i: nat)
    requires i <= |line|
    ensures WordsShaped(LexFrom(line, i))
    decreases |line| - i
  {
    var k := SpaceEnd(line, i);
    if k < |line| {
      var x: Lexeme;
      var end: nat;
      if IsQuote(line[k]) {
        var b := QuotedFrom(line, k + 1, line[k]);
        x, end := Quoted(line[k], b.text), b.end;
      } else {
        var w := WordFrom(line, k);
        WordFromSlice(line, k);
        x, end := Word(w.text), w.end;
      }
      LexWordsShaped(line, end);
      var rest := LexFrom(line, end);
      assert LexFrom(line, i) == [x] + rest;
      forall j | 0 <= j < |[x] + rest| && ([x] + rest)[j].Word?
        ensures ([x] + rest)[j].text != [] && NoSpace(([x] + rest)[j].text)
      {
        if j > 0 {
          assert ([x] + rest)[j] == rest[j - 1];
        }
      }
    }
  }

  /** A quoted token that meets neither a backslash nor its quote runs to
      the end of the line: an unterminated quote is not an error, and the
      token is the text read so far. */
  lemma {:induction false} QuotedUnterminated(line: string, i: nat, q: char)
    requires i <= |line|
    requires forall k :: i <= k < |line| ==> line[k] != '\\' && line[k] != q
    ensures QuotedFrom(line, i, q) == Scan(line[i..], |line|)
    decreases |line| - i
  {
    if i < |line| {
      QuotedUnterminated(line, i + 1, q);
      assert line[i..] == [line[i]] + line[i + 1..];
    }
  }

  function Texts(ls: seq<Lexeme>): (r: seq<string>)
    ensures |r| == |ls| && forall i :: 0 <= i < |ls| ==> r[i] == ls[i].text
    decreases |ls|
  {
    if ls == [] then [] else [ls[0].text] + Texts(ls[1..])
  }

  lemma TextsSnoc(ls: seq<Lexeme>, l: Lexeme)
    ensures Texts(ls + [l]) == Texts(ls) + [l.text]
  {
    assert |Texts(ls + [l])| == |Texts(ls) + [l.text]|;
  }

  /** What Tokenizer(s).tokenize() returns. */
  function Tokens(s: string): seq<string> {
    Texts(LexFrom(s, 0))
  }

  /** The cursor of the source: a line and a read position. */
  class Tokenizer {
    const line: string
    var pos: nat

    ghost predicate Valid()
      reads this
    {
      pos <= |line|
    }

    constructor (line: string)
      ensures Valid() && this.line == line && pos == 0
    {
      this.line := line;
      pos := 0;
    }

    predicate Eof()
      reads this
    {
      pos >= |line|
    }

    function Peek(): (c: Option<char>)
      reads this
      ensures c.None? <==> Eof()
      ensures c.Some? ==> c.value == line[pos]
    {
      if Eof() then None else Some(line[pos])
    }

    /** Steps over the whitespace at the cursor. */
    method SkipWhitespace()
      requires Valid()
      modifies this
      ensures Valid() && pos == SpaceEnd(line, old(pos))
    {
      ghost var start := pos;
      while !Eof() && IsSpace(line[pos])
        invariant pos <= |line| && SpaceEnd(line, pos) == SpaceEnd(line, start)
        decreases |line| - pos
      {
        pos := pos + 1;
      }
    }

    /** Reads an unquoted word: everything up to the next whitespace. */
    method ConsumeWord() returns (word: string)
      requires Valid()
      modifies this
      ensures Valid() && pos == WordFrom(line, old(pos)).end
      ensures word == line[old(pos)..pos] == WordFrom(line, old(pos)).text
    {
      var start := pos;
      while !Eof() && !IsSpace(line[pos])
        invariant start <= pos <= |line| && WordFrom(line, pos).end == WordFrom(line, start).end
        decreases |line| - pos
      {
        pos := pos + 1;
      }
      word := line[start..pos];
      WordFromSlice(line, start);
    }

    /** Reads a quoted token; the cursor is on its opening quote. */
    method ConsumeQuoted(q: char) returns (content: string)
      requires Valid() && pos < |line|
      modifies this
      ensures Valid()
      ensures var b := QuotedFrom(line, old(pos) + 1, q);
        content == b.text && pos == b.end
    {
      pos := pos + 1;
      ghost var start := pos;
      content := "";
      while !Eof()
        invariant start <= pos <= |line|
        invariant QuotedFrom(line, start, q) == Pending(line, pos, q, content)
        decreases |line| - pos
      {
        var ch := line[pos];
        if ch == '\\' {
          pos := pos + 1;
          if Eof() {
            PendingDangling(line, pos - 1, q, content);
            content := content + "\\";
            break;
          }
          var next := line[pos];
          PendingEscaped(line, pos - 1, q, content);
          if next == '\\' || next == q {
            content := content + [next];
          } else {
            content := content + ("\\" + [next]);
          }
          pos := pos + 1;
        } else if ch == q {
          PendingClosed(line, pos, q, content);
          pos := pos + 1;
          break;
        } else {
          PendingPlain(line, pos, q, content);
          content := content + [ch];
          pos := pos + 1;
        }
      }
    }

    /** Splits the rest of the line into tokens. */
    method Tokenize() returns (tokens: seq<string>)
      requires Valid()
      modifies this
      ensures Valid() && pos == |line|
      ensures tokens == Texts(LexFrom(line, old(pos)))
    {
      tokens := [];
      ghost var lexemes: seq<Lexeme> := [];
      ghost var start := pos;
      while !Eof()
        invariant Valid() && start <= pos
        invariant tokens == Texts(lexemes)
        invariant lexemes + LexFrom(line, pos) == LexFrom(line, start)
        decreases |line| - pos
      {
        ghost var here := pos;
        SkipWhitespace();
        LexSkipsSpaces(line, here);
        if Eof() {
          break;
        }
        var ch := Peek().value;
        ghost var at := pos;
        var content;
        ghost var lexeme;
        if IsQuote(ch) {
          content := ConsumeQuoted(ch);
          lexeme := Quoted(ch, content);
          LexQuotedAt(line, at, ch, content, pos);
        } else {
          content := ConsumeWord();
          lexeme := Word(content);
          LexWordAt(line, at, content, pos);
        }
        AppendAssoc(lexemes, [lexeme], LexFrom(line, pos));
        TextsSnoc(lexemes, lexeme);
        lexemes := lexemes + [lexeme];
        tokens := tokens + [content];
      }
    }
  }

  /** What is read from index `i` on, after `acc` has already been read. */
  ghost function Pending(line: string, i: nat, q: char, acc: string): Scan
    requires i <= |line|
  {
    var r := QuotedFrom(line, i, q);
    Scan(acc + r.text, r.end)
  }

  /** A backslash that ends the line stands for itself. */
  lemma PendingDangling(line: string, i: nat, q: char, acc: string)
    requires i + 1 == |line| && line[i] == '\\'
    ensures Pending(line, i, q, acc) == Scan(acc + "\\", i + 1)
  {
  }

  /** A backslash followed by a character is read as one unit. */
  lemma PendingEscaped(line: string, i: nat, q: char, acc: string)
    requires i + 1 < |line| && line[i] == '\\'
    ensures Pending(line, i, q, acc) ==
      Pending(line, i + 2, q, acc + (if line[i + 1] == '\\' || line[i + 1] == q then [line[i + 1]] else "\\" + [line[i + 1]]))
  {
    var unit := if line[i + 1] == '\\' || line[i + 1] == q then [line[i + 1]] else "\\" + [line[i + 1]];
    AppendAssoc(acc, unit, QuotedFrom(line, i + 2, q).text);
  }

  /** The closing quote ends the token. */
  lemma PendingClosed(line: string, i: nat, q: char, acc: string)
    requires i < |line| && line[i] != '\\' && line[i] == q
    ensures Pending(line, i, q, acc) == Scan(acc, i + 1)
  {
    assert acc + "" == acc;
  }

  /** Any other character is read as itself. */
  lemma PendingPlain(line: string, i: nat, q: char, acc: string)
    requires i < |line| && line[i] != '\\' && line[i] != q
    ensures Pending(line, i, q, acc) == Pending(line, i + 1, q, acc + [line[i]])
  {
    AppendAssoc(acc, [line[i]], QuotedFrom(line, i + 1, q).text);
  }

  /** QuotedFrom at a backslash that has a character after it. */
  lemma QuotedEscaped(line: string, i: nat, q: char, b: Scan)
    requires i + 1 < |line| && line[i] == '\\' && QuotedFrom(line, i + 2, q) == b
    ensures QuotedFrom(line, i, q) ==
      Scan((if line[i + 1] == '\\' || line[i + 1] == q then [line[i + 1]] else ['\\', line[i + 1]]) + b.text, b.end)
  {
  }

  /** QuotedFrom at a character that is neither a backslash nor the quote. */
  lemma QuotedPlain(line: string, i: nat, q: char, b: Scan)
    requires i < |line| && line[i] != '\\' && line[i] != q && QuotedFrom(line, i + 1, q) == b
    ensures QuotedFrom(line, i, q) == Scan([line[i]] + b.text, b.end)
  {
  }

  /** Whitespace before the tokens does not change them. */
  lemma LexSkipsSpaces(line: string, i: nat)
    requires i <= |line|
    ensures LexFrom(line, i) == LexFrom(line, SpaceEnd(line, i))
  {
    var k := SpaceEnd(line, i);
    assert SpaceEnd(line, k) == k;
  }

  /** A token that starts with a quote at `i` is read by QuotedFrom. */
  lemma LexQuotedAt(line: string, i: nat, q: char, text: string, end: nat)
    requires i < |line| && line[i] == q && IsQuote(q)
    requires QuotedFrom(line, i + 1, q) == Scan(text, end)
    ensures LexFrom(line, i) == [Quoted(q, text)] + LexFrom(line, end)
  {
    assert SpaceEnd(line, i) == i;
  }

  /** A token that starts at `i` with a character other than whitespace or
      a quote is the run WordFrom reads. */
  lemma LexWordAt(line: string, i: nat, w: string, end: nat)
    requires i < |line| && !IsSpace(line[i]) && !IsQuote(line[i])
    requires WordFrom(line, i) == Scan(w, end)
    ensures LexFrom(line, i) == [Word(w)] + LexFrom(line, end)
  {
    assert SpaceEnd(line, i) == i;
  }
}
