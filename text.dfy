/** The string operations of Rust's `str` that the source parser relies on:
    `lines`, `trim`, `starts_with`, `ends_with`, `find` and `rfind`.
    Strings are sequences of Unicode scalar values, as Rust's `char`. */
module Text {
  import opened Wrappers

  /** Rust's `char::is_whitespace`: the Unicode White_Space property. */
  const Whitespace: set<char> := {' ', '\t', '\n', '\U{B}', '\U{C}', '\r', '\U{85}', '\U{A0}', '\U{1680}',
    '\U{2000}', '\U{2001}', '\U{2002}', '\U{2003}', '\U{2004}', '\U{2005}', '\U{2006}', '\U{2007}',
    '\U{2008}', '\U{2009}', '\U{200A}', '\U{2028}', '\U{2029}', '\U{202F}', '\U{205F}', '\U{3000}'}

  predicate IsWhitespace(c: char)
  {
    c in Whitespace
  }

  ghost predicate AllWhitespace(s: string)
  {
    forall k :: 0 <= k < |s| ==> IsWhitespace(s[k])
  }

  /** No whitespace at either end: what `trim` leaves behind. */
  ghost predicate Trimmed(s: string)
  {
    s == [] || (!IsWhitespace(s[0]) && !IsWhitespace(s[|s| - 1]))
  }

  predicate StartsWith(s: string, prefix: string)
  {
    |prefix| <= |s| && s[..|prefix|] == prefix
  }

  predicate EndsWith(s: string, suffix: string)
  {
    |suffix| <= |s| && s[|s| - |suffix|..] == suffix
  }

  /** `str::trim_start`: `s` without its leading whitespace. */
  function TrimStart(s: string): (r: string)
    ensures |r| <= |s|
    ensures r == [] || !IsWhitespace(r[0])
    decreases |s|
  {
    if s != [] && IsWhitespace(s[0]) then TrimStart(s[1..]) else s
  }

  /** `str::trim_end`: `s` without its trailing whitespace, a prefix of `s`. */
  function TrimEnd(s: string): (r: string)
    ensures |r| <= |s| && r == s[..|r|]
    ensures r == [] || !IsWhitespace(r[|r| - 1])
    decreases |s|
  {
    if s != [] && IsWhitespace(s[|s| - 1]) then TrimEnd(s[..|s| - 1]) else s
  }

  /** `str::trim`: whitespace removed at both ends (see TrimPadded for the
      converse: exactly the surrounding whitespace is removed). */
  function Trim(s: string): (r: string)
    ensures Trimmed(r)
    ensures |r| <= |s|
  {
    var t := TrimStart(s);
    var r := TrimEnd(t);
    assert r != [] ==> r[0] == t[0];
    r
  }

  lemma {:induction false} TrimStartPadded(a: string, m: string)
    requires AllWhitespace(a)
    requires m == [] || !IsWhitespace(m[0])
    ensures TrimStart(a + m) == m
    decreases |a|
  {
    if a != [] {
      assert (a + m)[1..] == a[1..] + m;
      TrimStartPadded(a[1..], m);
    } else {
      assert a + m == m;
    }
  }

  lemma {:induction false} TrimEndPadded(m: string, b: string)
    requires AllWhitespace(b)
    requires m == [] || !IsWhitespace(m[|m| - 1])
    ensures TrimEnd(m + b) == m
    decreases |b|
  {
    if b != [] {
      assert (m + b)[..|m + b| - 1] == m + b[..|b| - 1];
      TrimEndPadded(m, b[..|b| - 1]);
    } else {
      assert m + b == m;
    }
  }

  /** `trim` removes exactly the whitespace around a trimmed core. */
  lemma TrimPadded(a: string, m: string, b: string)
    requires AllWhitespace(a) && AllWhitespace(b) && Trimmed(m)
    ensures Trim(a + m + b) == m
  {
    if m == [] {
      assert a + m + b == (a + b) + m;
      TrimStartPadded(a + b, m);
      TrimEndPadded(m, m);
    } else {
      assert a + m + b == a + (m + b);
      TrimStartPadded(a, m + b);
      TrimEndPadded(m, b);
    }
  }

  /** `str::find` for a single character: the index of its first occurrence. */
  function FindChar(s: string, c: char): (r: Option<nat>)
    ensures r.None? <==> c !in s
    ensures r.Some? ==> r.value < |s| && s[r.value] == c && c !in s[..r.value]
  {
    if s == [] then None
    else if s[0] == c then Some(0)
    else match FindChar(s[1..], c)
      case None => None
      case Some(i) => Some(i + 1)
  }

  /** `str::rfind` for a single character: the index of its last occurrence. */
  function RFindChar(s: string, c: char): (r: Option<nat>)
    ensures r.None? <==> c !in s
    ensures r.Some? ==> r.value < |s| && s[r.value] == c && c !in s[r.value + 1..]
  {
    if s == [] then None
    else if s[|s| - 1] == c then Some(|s| - 1)
    else
      assert s == s[..|s| - 1] + [s[|s| - 1]];
      RFindChar(s[..|s| - 1], c)
  }

  /** Rust's `str::lines`: the text split at each '\n'; a final '\n' does not
      start another (empty) line, and the empty text has no lines. The '\r' of
      a "\r\n" ending is left on the line here; every caller trims it away. */
  function Lines(s: string): (ls: seq<string>)
    ensures forall k :: 0 <= k < |ls| ==> '\n' !in ls[k]
    ensures |ls| <= |s|
    decreases |s|
  {
    if s == [] then []
    else match FindChar(s, '\n')
      case None => [s]
      case Some(i) => [s[..i]] + Lines(s[i + 1..])
  }

  /** Every line followed by a '\n': the text that `Lines` reads back. */
  function JoinLines(ls: seq<string>): (s: string)
    ensures |s| >= |ls|
  {
    if ls == [] then [] else ls[0] + "\n" + JoinLines(ls[1..])
  }

  /** `find` returns the one index holding the first occurrence. */
  lemma FindCharAt(s: string, c: char, i: nat)
    requires i < |s| && s[i] == c && c !in s[..i]
    ensures FindChar(s, c) == Some(i)
  {
  }

  /** `rfind` returns the one index holding the last occurrence. */
  lemma RFindCharAt(s: string, c: char, i: nat)
    requires i < |s| && s[i] == c && c !in s[i + 1..]
    ensures RFindChar(s, c) == Some(i)
  {
  }

  /** Splitting the joined lines gives the lines back. */
  lemma {:induction false} LinesOfJoin(ls: seq<string>)
    requires forall k :: 0 <= k < |ls| ==> '\n' !in ls[k]
    ensures Lines(JoinLines(ls)) == ls
  {
    if ls != [] {
      var s := JoinLines(ls);
      var n := |ls[0]|;
      assert s == ls[0] + "\n" + JoinLines(ls[1..]);
      assert s[..n] == ls[0];
      FindCharAt(s, '\n', n);
      assert s[n + 1..] == JoinLines(ls[1..]);
      LinesOfJoin(ls[1..]);
    }
  }

  /** Joining the lines of a text gives the text back, with a final '\n'
      added when it had none. */
  lemma {:induction false} JoinOfLines(s: string)
    ensures JoinLines(Lines(s)) == Terminated(s)
    decreases |s|
  {
    if s == [] {
    } else if '\n' !in s {
      assert s[|s| - 1] in s;
      assert Lines(s) == [s];
      JoinCons(s, []);
    } else {
      var i := FindChar(s, '\n').value;
      var head, rest := s[..i], s[i + 1..];
      assert Lines(s) == [head] + Lines(rest);
      JoinCons(head, Lines(rest));
      JoinOfLines(rest);
      TerminatedStep(s, i);
    }
  }

  /** The text with a final '\n' added when it does not end with one. */
  function Terminated(s: string): string
  {
    if s == [] || s[|s| - 1] == '\n' then s else s + "\n"
  }

  lemma JoinCons(head: string, ls: seq<string>)
    ensures JoinLines([head] + ls) == head + "\n" + JoinLines(ls)
  {
    assert ([head] + ls)[1..] == ls;
  }

  lemma TerminatedStep(s: string, i: nat)
    requires i < |s| && s[i] == '\n'
    ensures Terminated(s) == s[..i] + "\n" + Terminated(s[i + 1..])
  {
    var rest := s[i + 1..];
    if rest == [] {
      assert s == s[..i] + "\n";
    } else {
      assert s == s[..i] + "\n" + rest;
      assert rest[|rest| - 1] == s[|s| - 1];
      assert s + "\n" == s[..i] + "\n" + (rest + "\n");
    }
  }

  /** A non-empty text with no '\n' is a single line. */
  lemma SingleLine(s: string)
    requires s != [] && '\n' !in s
    ensures Lines(s) == [s]
  {
  }
}
