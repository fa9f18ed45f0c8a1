/** The inverse of the tokenizer: a way of writing any list of tokens as a
    line that Tokenizer reads back as exactly that list, and the facts about
    the tokenizer this rests on. */
module Quoting {
  import opened Text
  import opened Tokenizing

  /** A token that can be written as it is: non-empty, free of whitespace,
      and not starting with a quote character. */
  predicate PlainWord(t: string) {
    t != [] && NoSpace(t) && !IsQuote(t[0])
  }

  /** Escapes `t` for use between two `q` quotes: a backslash goes before
      every backslash and every `q`. */
  function Escape(q: char, t: string): (r: string)
    ensures |t| <= |r|
    decreases |t|
  {
    if t == [] then ""
    else (if t[0] == '\\' || t[0] == q then ['\\', t[0]] else [t[0]]) + Escape(q, t[1..])
  }

  /** `t` in double quotes. */
  function Quote(t: string): string {
    "\"" + Escape('"', t) + "\""
  }

  /** How a token is written: as it is when it is a plain word, quoted
      otherwise. */
  function Render(t: string): string {
    if PlainWord(t) then t else Quote(t)
  }

  /** The renderings of `ts`, separated by single spaces. */
  function RenderAll(ts: seq<string>): string
    decreases |ts|
  {
    if ts == [] then ""
    else if |ts| == 1 then Render(ts[0])
    else Render(ts[0]) + " " + RenderAll(ts[1..])
  }

  /** The lexeme the tokenizer reads back from Render(t). */
  function ReadBack(t: string): Lexeme {
    if PlainWord(t) then Word(t) else Quoted('"', t)
  }

  function ReadBacks(ts: seq<string>): (r: seq<Lexeme>)
    ensures |r| == |ts|
    decreases |ts|
  {
    if ts == [] then [] else [ReadBack(ts[0])] + ReadBacks(ts[1..])
  }

  /** How Escape writes one character. */
  function EscapeUnit(q: char, c: char): string {
    if c == '\\' || c == q then ['\\', c] else [c]
  }

  lemma EscapeCons(q: char, t: string)
    requires t != []
    ensures Escape(q, t) == EscapeUnit(q, t[0]) + Escape(q, t[1..])
  {
  }

  /** `s` occurs in `line` at index `i`, stated character by character
      (the same as OccursAt(line, s, i), see SpellsOccurs). */
  ghost predicate Spells(line: string, i: nat, s: string) {
    i + |s| <= |line| && forall k :: 0 <= k < |s| ==> line[i + k] == s[k]
  }

  lemma SpellsOccurs(line: string, i: nat, s: string)
    ensures Spells(line, i, s) <==> OccursAt(line, s, i)
  {
    if Spells(line, i, s) {
      assert line[i..i + |s|] == s;
    }
    if OccursAt(line, s, i) {
      forall k | 0 <= k < |s|
        ensures line[i + k] == s[k]
      {
        assert line[i + k] == line[i..i + |s|][k];
      }
    }
  }

  /** `a + b` occurs at `i` exactly when `a` does and `b` follows it. */
  lemma SpellsSplit(line: string, i: nat, a: string, b: string)
    ensures Spells(line, i, a + b) <==> Spells(line, i, a) && Spells(line, i + |a|, b)
  {
    if Spells(line, i, a) && Spells(line, i + |a|, b) {
      forall k | 0 <= k < |a + b|
        ensures line[i + k] == (a + b)[k]
      {
        if k >= |a| {
          assert line[i + |a| + (k - |a|)] == b[k - |a|];
        }
      }
    }
    if Spells(line, i, a + b) {
      forall k | 0 <= k < |a|
        ensures line[i + k] == a[k]
      {
        assert line[i + k] == (a + b)[k];
      }
      forall k | 0 <= k < |b|
        ensures line[i + |a| + k] == b[k]
      {
        assert line[i + (|a| + k)] == (a + b)[|a| + k];
      }
    }
  }

  /** Reading an escaped text followed by its closing quote gives the text
      back and stops just past the quote. */
  lemma {:induction false} EscapeRead(line: string, i: nat, q: char, t: string)
    requires IsQuote(q) && Spells(line, i, Escape(q, t) + [q])
    ensures QuotedFrom(line, i, q) == Scan(t, i + |Escape(q, t)| + 1)
    decreases |t|
  {
    var e := Escape(q, t);
    if t == [] {
      assert line[i + 0] == (e + [q])[0] == q;
    } else {
      var u := EscapeUnit(q, t[0]);
      var e' := Escape(q, t[1..]);
      EscapeCons(q, t);
      SpellsSplit(line, i, u + e', [q]);
      SpellsSplit(line, i, u, e');
      SpellsSplit(line, i + |u|, e', [q]);
      EscapeRead(line, i + |u|, q, t[1..]);
      var b := Scan(t[1..], i + |u| + |e'| + 1);
      assert line[i + 0] == u[0];
      if |u| == 2 {
        assert line[i + 1] == u[1] == t[0];
        QuotedEscaped(line, i, q, b);
      } else {
        QuotedPlain(line, i, q, b);
      }
      assert [t[0]] + t[1..] == t;
    }
  }

  /** A plain word followed by whitespace or the end of the line is read as
      one run. */
  lemma {:induction false} WordRead(line: string, i: nat, w: string)
    requires NoSpace(w) && Spells(line, i, w)
    requires i + |w| < |line| ==> IsSpace(line[i + |w|])
    ensures WordFrom(line, i) == Scan(w, i + |w|)
    decreases |w|
  {
    if w != [] {
      assert w == [w[0]] + w[1..];
      SpellsSplit(line, i, [w[0]], w[1..]);
      assert line[i + 0] == w[0];
      WordRead(line, i + 1, w[1..]);
    }
  }

  /** Whitespace before a token does not change what is read. */
  lemma LexSkipsSpace(line: string, i: nat)
    requires i < |line| && IsSpace(line[i])
    ensures LexFrom(line, i) == LexFrom(line, i + 1)
  {
  }

  /** What the tokenizer meets at `i` when the rendering of `t` starts there
      and ends just before `end`. */
  ghost predicate ReadsAs(line: string, i: nat, t: string, end: nat) {
    i < |line| &&
    if PlainWord(t) then line[i] == t[0] && WordFrom(line, i) == Scan(t, end)
    else line[i] == '"' && QuotedFrom(line, i + 1, '"') == Scan(t, end)
  }

  /** A rendering of `t`, followed by whitespace or the end of the line, is
      read as ReadsAs says. */
  lemma RenderReads(line: string, i: nat, t: string)
    requires Spells(line, i, Render(t))
    requires i + |Render(t)| < |line| ==> IsSpace(line[i + |Render(t)|])
    ensures ReadsAs(line, i, t, i + |Render(t)|)
  {
    if PlainWord(t) {
      WordRead(line, i, t);
      assert line[i + 0] == t[0];
    } else {
      var e := Escape('"', t);
      assert Render(t) == ['"'] + e + ['"'];
      SpellsSplit(line, i, ['"'] + e, ['"']);
      SpellsSplit(line, i, ['"'], e);
      SpellsSplit(line, i + 1, e, ['"']);
      assert line[i + 0] == ['"'][0];
      EscapeRead(line, i + 1, '"', t);
    }
  }

  /** Whatever ReadsAs describes is read back as the lexeme of `t`. */
  lemma LexReads(line: string, i: nat, t: string, end: nat)
    requires ReadsAs(line, i, t, end)
    ensures LexFrom(line, i) == [ReadBack(t)] + LexFrom(line, end)
  {
    if PlainWord(t) {
      assert !IsSpace(t[0]);
      LexWordAt(line, i, t, end);
    } else {
      LexQuotedAt(line, i, '"', t, end);
    }
  }

  /** The tokens `ts` lie in the line from `i` to its end, each read as
      ReadsAs says up to its entry in `ends`, separated by whitespace. */
  ghost predicate Laid(line: string, i: nat, ts: seq<string>, ends: seq<nat>)
    requires |ends| == |ts|
    decreases |ts|
  {
    if ts == [] then i == |line|
    else
      ReadsAs(line, i, ts[0], ends[0]) &&
      if |ts| == 1 then ends[0] == |line|
      else ends[0] < |line| && IsSpace(line[ends[0]]) && Laid(line, ends[0] + 1, ts[1..], ends[1..])
  }

  /** A line that ends with RenderAll(ts) from index `i` on lays out `ts`. */
  lemma {:induction false} RenderLaid(line: string, i: nat, ts: seq<string>) returns (ends: seq<nat>)
    requires Spells(line, i, RenderAll(ts)) && i + |RenderAll(ts)| == |line|
    ensures |ends| == |ts| && Laid(line, i, ts, ends)
    decreases |ts|
  {
    if ts == [] {
      ends := [];
    } else if |ts| == 1 {
      ends := LaidLast(line, i, ts);
    } else {
      RenderAllHead(line, i, ts);
      var more := RenderLaid(line, i + |Render(ts[0])| + 1, ts[1..]);
      ends := LaidFirst(line, i, ts, more);
    }
  }

  /** A rendering of a single token that ends the line lays it out. */
  lemma LaidLast(line: string, i: nat, ts: seq<string>) returns (ends: seq<nat>)
    requires |ts| == 1 && Spells(line, i, RenderAll(ts)) && i + |RenderAll(ts)| == |line|
    ensures |ends| == |ts| && Laid(line, i, ts, ends)
  {
    RenderReads(line, i, ts[0]);
    ends := [i + |Render(ts[0])|];
  }

  /** Where a rendering of several tokens is spelled, the first token is
      spelled, then a space, then the rendering of the rest. */
  lemma RenderAllHead(line: string, i: nat, ts: seq<string>)
    requires |ts| > 1 && Spells(line, i, RenderAll(ts)) && i + |RenderAll(ts)| == |line|
    ensures Spells(line, i, Render(ts[0]))
    ensures i + |Render(ts[0])| < |line| && IsSpace(line[i + |Render(ts[0])|])
    ensures Spells(line, i + |Render(ts[0])| + 1, RenderAll(ts[1..]))
    ensures i + |Render(ts[0])| + 1 + |RenderAll(ts[1..])| == |line|
  {
    var r := Render(ts[0]);
    var rest := RenderAll(ts[1..]);
    assert RenderAll(ts) == (r + " ") + rest;
    SpellsSplit(line, i, r + " ", rest);
    assert i + |r + " "| == i + |r| + 1;
    SpellsSpace(line, i, r);
  }

  /** Where a string and then a space are spelled, the string is spelled and
      whitespace follows it. */
  lemma SpellsSpace(line: string, i: nat, r: string)
    requires Spells(line, i, r + " ")
    ensures Spells(line, i, r) && i + |r| < |line| && IsSpace(line[i + |r|])
  {
    SpellsSplit(line, i, r, " ");
    assert line[i + |r| + 0] == " "[0];
  }

  /** A rendering of the first token, then whitespace, then a layout of the
      rest lays out all of `ts`. */
  lemma LaidFirst(line: string, i: nat, ts: seq<string>, more: seq<nat>) returns (ends: seq<nat>)
    requires |ts| > 1 && |more| == |ts| - 1 && Spells(line, i, Render(ts[0]))
    requires i + |Render(ts[0])| < |line| && IsSpace(line[i + |Render(ts[0])|])
    requires Laid(line, i + |Render(ts[0])| + 1, ts[1..], more)
    ensures |ends| == |ts| && Laid(line, i, ts, ends)
  {
    RenderReads(line, i, ts[0]);
    LaidCons(line, i, ts, i + |Render(ts[0])|, more);
    ends := [i + |Render(ts[0])|] + more;
  }

  /** Laying out a first token, then whitespace, then the rest. */
  lemma LaidCons(line: string, i: nat, ts: seq<string>, end: nat, more: seq<nat>)
    requires |ts| > 1 && |more| == |ts| - 1 && ReadsAs(line, i, ts[0], end)
    requires end < |line| && IsSpace(line[end]) && Laid(line, end + 1, ts[1..], more)
    ensures Laid(line, i, ts, [end] + more)
  {
    var ends := [end] + more;
    assert ends[0] == end && ends[1..] == more;
  }

  /** Reading a line that lays out `ts` from `i` gives `ts` back. */
  lemma {:induction false} LexLaid(line: string, i: nat, ts: seq<string>, ends: seq<nat>)
    requires i <= |line| && |ends| == |ts| && Laid(line, i, ts, ends)
    ensures LexFrom(line, i) == ReadBacks(ts)
    decreases |ts|
  {
    if ts == [] {
      assert SpaceEnd(line, i) == i;
    } else {
      var n := ends[0];
      LexReads(line, i, ts[0], n);
      if |ts| == 1 {
        assert SpaceEnd(line, n) == n;
      } else {
        LexSkipsSpace(line, n);
        LexLaid(line, n + 1, ts[1..], ends[1..]);
      }
      assert ReadBacks(ts) == [ReadBack(ts[0])] + ReadBacks(ts[1..]);
    }
  }

  /** Any list of tokens survives rendering and tokenizing: the tokenizer is
      a left inverse of Render joined with spaces. */
  lemma RenderRoundTrip(ts: seq<string>)
    ensures Tokens(RenderAll(ts)) == ts
  {
    var line := RenderAll(ts);
    assert Spells(line, 0, line);
    var ends := RenderLaid(line, 0, ts);
    LexLaid(line, 0, ts, ends);
    TextsReadBacks(ts);
  }

  lemma {:induction false} TextsReadBacks(ts: seq<string>)
    ensures Texts(ReadBacks(ts)) == ts
    decreases |ts|
  {
    if ts != [] {
      TextsReadBacks(ts[1..]);
    }
  }

  /** Plain words joined with single spaces are read back as they are. */
  lemma PlainRoundTrip(ts: seq<string>)
    requires forall i :: 0 <= i < |ts| ==> PlainWord(ts[i])
    ensures Tokens(JoinWith(" ", ts)) == ts
  {
    RenderAllPlain(ts);
    RenderRoundTrip(ts);
  }

  lemma {:induction false} RenderAllPlain(ts: seq<string>)
    requires forall i :: 0 <= i < |ts| ==> PlainWord(ts[i])
    ensures RenderAll(ts) == JoinWith(" ", ts)
    decreases |ts|
  {
    if |ts| > 1 {
      RenderAllPlain(ts[1..]);
    }
  }
}
