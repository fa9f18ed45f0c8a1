/** Character classes and string operations the interpreter relies on,
    restricted to ASCII: Python's str.isspace, str.strip, str.lower,
    str.isdigit, substring search, str.join and posixpath.join. */
module Text {
  import opened Wrappers

  /** Python's str.isspace on ASCII: tab, line feed, vertical tab, form
      feed, carriage return, the four separators 0x1C-0x1F, and space. */
  predicate IsSpace(c: char) {
    (9 <= c as int <= 13) || (28 <= c as int <= 32)
  }

  predicate IsDigit(c: char) {
    '0' <= c <= '9'
  }

  predicate IsAlnum(c: char) {
    ('a' <= c <= 'z') || ('A' <= c <= 'Z') || IsDigit(c)
  }

  predicate NoSpace(s: string) {
    forall i :: 0 <= i < |s| ==> !IsSpace(s[i])
  }

  /** str.lstrip(): drop leading whitespace. */
  function TrimStart(s: string): (r: string)
    ensures |r| <= |s|
  {
    if s != [] && IsSpace(s[0]) then TrimStart(s[1..]) else s
  }

  /** lstrip removes exactly the whitespace at the start of `s`. */
  lemma {:induction false} TrimStartFacts(s: string)
    ensures var r := TrimStart(s);
      r == s[|s| - |r|..] && (r == [] || !IsSpace(r[0])) &&
      forall i :: 0 <= i < |s| - |r| ==> IsSpace(s[i])
    decreases |s|
  {
    if s != [] && IsSpace(s[0]) {
      TrimStartFacts(s[1..]);
      var r := TrimStart(s);
      assert s[1..][|s| - 1 - |r|..] == s[|s| - |r|..];
      forall i | 0 <= i < |s| - |r|
        ensures IsSpace(s[i])
      {
        if i > 0 {
          assert s[i] == s[1..][i - 1];
        }
      }
    }
  }

  /** str.rstrip(): drop trailing whitespace. */
  function TrimEnd(s: string): (r: string)
    ensures |r| <= |s|
  {
    if s != [] && IsSpace(s[|s| - 1]) then TrimEnd(s[..|s| - 1]) else s
  }

  /** rstrip removes exactly the whitespace at the end of `s`. */
  lemma {:induction false} TrimEndFacts(s: string)
    ensures var r := TrimEnd(s);
      r == s[..|r|] && (r == [] || !IsSpace(r[|r| - 1])) &&
      forall i :: |r| <= i < |s| ==> IsSpace(s[i])
    decreases |s|
  {
    if s != [] && IsSpace(s[|s| - 1]) {
      TrimEndFacts(s[..|s| - 1]);
      var r := TrimEnd(s);
      assert s[..|s| - 1][..|r|] == s[..|r|];
      forall i | |r| <= i < |s|
        ensures IsSpace(s[i])
      {
        if i < |s| - 1 {
          assert s[i] == s[..|s| - 1][i];
        }
      }
    }
  }

  /** str.strip(). */
  function Trim(s: string): string {
    TrimEnd(TrimStart(s))
  }

  /** `line.strip() == ""`: the line is empty or all whitespace (see
      BlankIsTrimEmpty). */
  predicate IsBlank(s: string) {
    forall i :: 0 <= i < |s| ==> IsSpace(s[i])
  }

  lemma BlankIsTrimEmpty(s: string)
    ensures IsBlank(s) <==> Trim(s) == []
  {
    if IsBlank(s) {
      BlankTrimStart(s);
    }
    TrimStartFacts(s);
    var t := TrimStart(s);
    TrimEndFacts(t);

  }

  lemma {:induction false} BlankTrimStart(s: string)
    requires IsBlank(s)
    ensures TrimStart(s) == []
    decreases |s|
  {
    if s != [] {
      BlankTrimStart(s[1..]);
    }
  }

  /** A text that strip leaves as it is has no whitespace at either end. */
  lemma TrimFixed(t: string)
    requires t != [] && Trim(t) == t
    ensures !IsSpace(t[0]) && !IsSpace(t[|t| - 1])
  {
    var u := TrimStart(t);
    TrimStartFacts(t);
    assert |u| == |t| by {
      assert |Trim(t)| <= |u| <= |t|;
    }
    assert u == t[0..];
    TrimEndFacts(t);
    assert TrimEnd(t) == t;
  }

  predicate StartsWith(s: string, prefix: string) {
    |prefix| <= |s| && s[..|prefix|] == prefix
  }

  predicate EndsWith(s: string, suffix: string) {
    |suffix| <= |s| && s[|s| - |suffix|..] == suffix
  }

  lemma AppendAssoc<T>(a: seq<T>, b: seq<T>, c: seq<T>)
    ensures a + (b + c) == (a + b) + c
  {
  }

  lemma AppendNil<T>(s: seq<T>)
    ensures [] + s == s && s + [] == s
  {
  }

  /** `p` occurs in `s` starting at index `k`. */
  predicate OccursAt(s: string, p: string, k: nat) {
    k + |p| <= |s| && s[k..k + |p|] == p
  }

  /** Python's `needle in hay` on strings (also `hay.find(needle) >= 0`). */
  predicate IsSubstring(needle: string, hay: string) {
    exists i: nat :: i <= |hay| && OccursAt(hay, needle, i)
  }

  lemma OccursShift(s: string, p: string)
    requires s != []
    ensures forall k: nat :: 1 <= k ==> (OccursAt(s, p, k) <==> OccursAt(s[1..], p, k - 1))
  {
    forall k: nat | 1 <= k
      ensures OccursAt(s, p, k) <==> OccursAt(s[1..], p, k - 1)
    {
      if k + |p| <= |s| {
        assert s[1..][k - 1..k - 1 + |p|] == s[k..k + |p|];
      }
    }
  }

  /** The first index at which `p` occurs in `s` (str.find, with None for
      -1). */
  function IndexOf(s: string, p: string): (r: Option<nat>)
    ensures r.Some? ==> r.value + |p| <= |s|
    decreases |s|
  {
    if |s| < |p| then None
    else if s[..|p|] == p then Some(0)
    else
      match IndexOf(s[1..], p)
      case None => None
      case Some(k) => Some(k + 1)
  }

  /** IndexOf finds the first occurrence, and finds none exactly when `p`
      is not a substring. */
  lemma {:induction false} IndexOfFacts(s: string, p: string)
    ensures var r := IndexOf(s, p);
      (r.Some? ==> OccursAt(s, p, r.value) && forall k: nat :: k < r.value ==> !OccursAt(s, p, k)) &&
      (r.None? <==> !IsSubstring(p, s))
    decreases |s|
  {
    var r := IndexOf(s, p);
    if |s| < |p| {
      forall i: nat
        ensures !(i <= |s| && OccursAt(s, p, i))
      {
      }
    } else if s[..|p|] == p {
      assert OccursAt(s, p, 0);
    } else {
      IndexOfFacts(s[1..], p);
      OccursShift(s, p);
      assert !OccursAt(s, p, 0);
      if r.None? {
        forall i: nat
          ensures !(i <= |s| && OccursAt(s, p, i))
        {
          if 1 <= i <= |s| {
            assert !(i - 1 <= |s[1..]| && OccursAt(s[1..], p, i - 1));
          }
        }
      } else {
        assert OccursAt(s[1..], p, r.value - 1);
        assert r.value - 1 <= |s[1..]|;
      }
    }
  }

  /** Python's slice `s[n:]`, which is empty when n is past the end. */
  function Drop(s: string, n: nat): string {
    if n <= |s| then s[n..] else ""
  }

  /** `sep.join(parts)`. */
  function JoinWith(sep: string, parts: seq<string>): string
    decreases |parts|
  {
    if parts == [] then ""
    else if |parts| == 1 then parts[0]
    else parts[0] + sep + JoinWith(sep, parts[1..])
  }

  lemma JoinCons(sep: string, a: string, rest: seq<string>)
    requires rest != []
    ensures JoinWith(sep, [a] + rest) == a + sep + JoinWith(sep, rest)
  {
    assert ([a] + rest)[1..] == rest;
  }

  /** A join starts with its first part. */
  lemma JoinStarts(sep: string, parts: seq<string>)
    requires parts != []
    ensures StartsWith(JoinWith(sep, parts), parts[0])
  {
  }

  /** Joining parts that have no whitespace at either end, with a
      separator, gives a text with no whitespace at either end. */
  lemma {:induction false} JoinEnds(sep: string, parts: seq<string>)
    requires parts != []
    requires forall i :: 0 <= i < |parts| ==> parts[i] != [] && !IsSpace(parts[i][0]) && !IsSpace(parts[i][|parts[i]| - 1])
    ensures var j := JoinWith(sep, parts); j != [] && !IsSpace(j[0]) && !IsSpace(j[|j| - 1])
    decreases |parts|
  {
    if |parts| > 1 {
      JoinEnds(sep, parts[1..]);
    }
  }

  /** Stripping a text whose ends are not whitespace, after one leading
      space, gives the text. */
  lemma TrimSpaced(t: string)
    requires t != [] && !IsSpace(t[0]) && !IsSpace(t[|t| - 1])
    ensures Trim(" " + t) == t
  {
    assert (" " + t)[1..] == t;
    assert TrimStart(" " + t) == TrimStart(t) == t;
    assert TrimEnd(t) == t;
  }

  /** `"\n".join(lines)`. */
  function JoinLines(lines: seq<string>): string {
    JoinWith("\n", lines)
  }

  function LowerChar(c: char): char {
    if 'A' <= c <= 'Z' then (c as int + 32) as char else c
  }

  /** str.lower() on ASCII. */
  function Lower(s: string): (r: string)
    ensures |r| == |s| && forall i :: 0 <= i < |s| ==> r[i] == LowerChar(s[i])
  {
    seq(|s|, i requires 0 <= i < |s| => LowerChar(s[i]))
  }

  /** str.isdigit() on ASCII: non-empty and only decimal digits. */
  predicate AllDigits(s: string) {
    |s| > 0 && forall i :: 0 <= i < |s| ==> IsDigit(s[i])
  }

  function DigitValue(c: char): nat
    requires IsDigit(c)
  {
    c as int - '0' as int
  }

  /** int(s) for a string of decimal digits. */
  function DecimalValue(s: string): nat
    requires forall i :: 0 <= i < |s| ==> IsDigit(s[i])
    decreases |s|
  {
    if s == [] then 0
    else DecimalValue(s[..|s| - 1]) * 10 + DigitValue(s[|s| - 1])
  }

  /** int(s, 8) for a plain string of octal digits; None where Python raises. */
  function OctalValue(s: string): (r: Option<nat>)
    ensures r.Some? <==> |s| > 0 && forall i :: 0 <= i < |s| ==> '0' <= s[i] <= '7'
    decreases |s|
  {
    if s == [] || !('0' <= s[|s| - 1] <= '7') then None
    else if |s| == 1 then Some(s[0] as int - '0' as int)
    else
      match OctalValue(s[..|s| - 1])
      case None => None
      case Some(v) => Some(v * 8 + (s[|s| - 1] as int - '0' as int))
  }

  /** posixpath.join(base, p) for two components: an absolute `p`, or an
      empty base, gives `p`; otherwise `p` follows the base after exactly
      one added `/`, none when the base already ends with one. */
  function JoinPath(base: string, p: string): (r: string)
    ensures EndsWith(r, p)
    ensures StartsWith(p, "/") || base == [] ==> r == p
    ensures !StartsWith(p, "/") && base != [] ==>
      StartsWith(r, base) && r[|base|..] == (if EndsWith(base, "/") then p else "/" + p)
  {
    if StartsWith(p, "/") || base == [] then p
    else if EndsWith(base, "/") then base + p
    else base + "/" + p
  }

  /** Lowering case twice is lowering it once. */
  lemma LowerIdempotent(s: string)
    ensures Lower(Lower(s)) == Lower(s)
  {
  }

  /** Lowering case keeps digits and never turns a letter into a digit. */
  lemma LowerKeepsDigits(s: string)
    ensures AllDigits(Lower(s)) <==> AllDigits(s)
    ensures AllDigits(s) ==> Lower(s) == s
  {
  }
}
