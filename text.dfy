/**
 * The two text operations the server applies to a command's captured output:
 * Python's `str.strip()` with no argument and `str.splitlines()`, over the
 * code points those methods treat as whitespace and as line boundaries.
 */
module Text {

  /** The characters for which Python's `str.isspace()` holds. */
  predicate IsSpace(c: char) {
    c == ' ' || c == '\t' || c == '\n' || c == '\r' || c == '\U{B}' || c == '\U{C}'
    || ('\U{1C}' <= c <= '\U{1F}') || c == '\U{85}' || c == '\U{A0}' || c == '\U{1680}'
    || ('\U{2000}' <= c <= '\U{200A}') || c == '\U{2028}' || c == '\U{2029}'
    || c == '\U{202F}' || c == '\U{205F}' || c == '\U{3000}'
  }

  /** The characters at which Python's `str.splitlines()` ends a line ("\r\n" counts once). */
  predicate IsLineBreak(c: char) {
    c == '\n' || c == '\r' || c == '\U{B}' || c == '\U{C}' || c == '\U{1C}' || c == '\U{1D}'
    || c == '\U{1E}' || c == '\U{85}' || c == '\U{2028}' || c == '\U{2029}'
  }

  lemma LineBreakIsSpace(c: char)
    requires IsLineBreak(c)
    ensures IsSpace(c)
  {
  }

  predicate AllSpace(s: string) {
    forall k :: 0 <= k < |s| ==> IsSpace(s[k])
  }

  /** `s` without its leading whitespace: a suffix of `s`; `TrimStartShape` says which. */
  function TrimStart(s: string): (r: string)
    ensures |r| <= |s|
  {
    if s != [] && IsSpace(s[0]) then TrimStart(s[1..]) else s
  }

  /** Only whitespace was removed, and what is left starts with a non-space. */
  lemma {:induction false} TrimStartShape(s: string)
    ensures TrimStart(s) == s[|s| - |TrimStart(s)|..]
    ensures AllSpace(s[..|s| - |TrimStart(s)|])
    ensures TrimStart(s) != [] ==> !IsSpace(TrimStart(s)[0])
  {
    if s != [] && IsSpace(s[0]) {
      TrimStartShape(s[1..]);
      var n := |s| - |TrimStart(s)|;
      assert s[..n] == [s[0]] + s[1..][..n - 1];
    }
  }

  /** `s` without its trailing whitespace: a prefix of `s`; `TrimEndShape` says which. */
  function TrimEnd(s: string): (r: string)
    ensures |r| <= |s|
  {
    if s != [] && IsSpace(s[|s| - 1]) then TrimEnd(s[..|s| - 1]) else s
  }

  /** Only whitespace was removed, and what is left ends with a non-space. */
  lemma {:induction false} TrimEndShape(s: string)
    ensures TrimEnd(s) == s[..|TrimEnd(s)|]
    ensures AllSpace(s[|TrimEnd(s)|..])
    ensures TrimEnd(s) != [] ==> !IsSpace(TrimEnd(s)[|TrimEnd(s)| - 1])
  {
    if s != [] && IsSpace(s[|s| - 1]) {
      var init := s[..|s| - 1];
      TrimEndShape(init);
      var n := |TrimEnd(s)|;
      assert s[n..] == init[n..] + [s[|s| - 1]];
    }
  }

  /**
   * Python's `s.strip()`: what is left when every leading and every trailing
   * whitespace character is removed; `StripEmpty` and `StripShape` say what it is.
   */
  function Strip(s: string): (r: string)
    ensures |r| <= |s|
  {
    TrimEnd(TrimStart(s))
  }

  /** The stripped text is empty exactly when `s` is all whitespace. */
  lemma StripEmpty(s: string)
    ensures Strip(s) == [] <==> AllSpace(s)
  {
    var t := TrimStart(s);
    var n := |s| - |t|;
    TrimStartShape(s);
    TrimEndShape(t);
    if TrimEnd(t) == [] {
      assert t[0..] == t;
      assert t == [];
      assert s[..n] == s;
    } else {
      assert s[n] == t[0];
    }
  }

  /**
   * The stripped text is the infix of `s` that starts `i` characters in,
   * with only whitespace before and after it, and non-space at both ends.
   */
  lemma StripShape(s: string) returns (i: nat)
    ensures i + |Strip(s)| <= |s| && s[i..i + |Strip(s)|] == Strip(s)
    ensures AllSpace(s[..i]) && AllSpace(s[i + |Strip(s)|..])
    ensures Strip(s) != [] ==> !IsSpace(Strip(s)[0]) && !IsSpace(Strip(s)[|Strip(s)| - 1])
  {
    var t := TrimStart(s);
    var r := TrimEnd(t);
    assert Strip(s) == r;
    TrimStartShape(s);
    TrimEndShape(t);
    i := |s| - |t|;
    TrimmedInfix(s, i, t, r);
  }

  /** A prefix `r` of the suffix `t` of `s` that starts at `n`, in the terms `StripShape` uses. */
  lemma TrimmedInfix(s: string, n: nat, t: string, r: string)
    requires n <= |s| && t == s[n..] && |r| <= |t| && r == t[..|r|]
    requires t != [] ==> !IsSpace(t[0])
    requires AllSpace(t[|r|..])
    ensures n + |r| <= |s| && s[n..n + |r|] == r && s[n + |r|..] == t[|r|..]
    ensures r != [] ==> !IsSpace(r[0])
  {
    assert s[n..n + |r|] == s[n..][..|r|];
    if r != [] {
      assert r[0] == t[0];
    }
  }

  /**
   * A non-empty stripped output neither starts nor ends at a line boundary,
   * so its last line is not empty, as `SplitJoined` needs.
   */
  lemma StrippedEnds(s: string)
    ensures Strip(s) != [] ==> !IsLineBreak(Strip(s)[0]) && !IsLineBreak(Strip(s)[|Strip(s)| - 1])
  {
    var r := Strip(s);
    var _ := StripShape(s);
    if r != [] {
      if IsLineBreak(r[0]) {
        LineBreakIsSpace(r[0]);
      }
      if IsLineBreak(r[|r| - 1]) {
        LineBreakIsSpace(r[|r| - 1]);
      }
    }
  }

  lemma {:induction false} StripIdempotent(s: string)
    ensures Strip(Strip(s)) == Strip(s)
  {
    var r := Strip(s);
    var _ := StripShape(s);
    TrimStartShape(r);
    TrimEndShape(r);
    if r != [] {
      assert TrimStart(r) == r;
      assert TrimEnd(r) == r;
    }
  }

  predicate NoBreak(line: string) {
    forall k :: 0 <= k < |line| ==> !IsLineBreak(line[k])
  }

  /** The index of the first line boundary in `s`, or `|s|` when there is none. */
  function FirstBreak(s: string): (i: nat)
    ensures i <= |s|
    ensures i < |s| ==> IsLineBreak(s[i])
  {
    if s == [] || IsLineBreak(s[0]) then 0 else 1 + FirstBreak(s[1..])
  }

  /** No line boundary comes before the first one. */
  lemma {:induction false} FirstBreakShape(s: string)
    ensures NoBreak(s[..FirstBreak(s)])
  {
    if s != [] && !IsLineBreak(s[0]) {
      FirstBreakShape(s[1..]);
      var n := FirstBreak(s);
      assert s[..n] == [s[0]] + s[1..][..n - 1];
    }
  }

  /** How many characters the line boundary at `i` takes: two for "\r\n", one otherwise. */
  function BreakLength(s: string, i: nat): (n: nat)
    requires i < |s| && IsLineBreak(s[i])
    ensures 1 <= n <= |s| - i
  {
    if s[i] == '\r' && i + 1 < |s| && s[i + 1] == '\n' then 2 else 1
  }

  /**
   * Python's `s.splitlines()`: the lines of `s` without their line boundaries;
   * a boundary at the very end does not start an extra empty line.
   */
  function SplitLines(s: string): (lines: seq<string>)
    ensures s == [] <==> lines == []
    decreases |s|
  {
    var i := FirstBreak(s);
    if i == |s| then
      if s == [] then [] else [s]
    else
      [s[..i]] + SplitLines(s[i + BreakLength(s, i)..])
  }

  /** No line contains a line boundary. */
  lemma {:induction false} SplitLinesNoBreak(s: string)
    ensures forall k :: 0 <= k < |SplitLines(s)| ==> NoBreak(SplitLines(s)[k])
    decreases |s|
  {
    var i := FirstBreak(s);
    FirstBreakShape(s);
    if i < |s| {
      var rest := s[i + BreakLength(s, i)..];
      SplitLinesNoBreak(rest);
      assert s[..i] == s[..FirstBreak(s)];
      assert SplitLines(s) == [s[..i]] + SplitLines(rest);
    }
  }

  /** Each line followed by "\n": the text `splitlines` takes apart again. */
  function Terminated(lines: seq<string>): string {
    if lines == [] then [] else lines[0] + "\n" + Terminated(lines[1..])
  }

  lemma {:induction false} FirstBreakAfterLine(line: string, rest: string)
    requires NoBreak(line) && rest != [] && IsLineBreak(rest[0])
    ensures FirstBreak(line + rest) == |line|
  {
    var s := line + rest;
    if line == [] {
      assert s == rest;
    } else {
      assert s[0] == line[0];
      assert s[1..] == line[1..] + rest;
      FirstBreakAfterLine(line[1..], rest);
    }
  }

  lemma {:induction false} SplitTerminated(lines: seq<string>)
    requires forall k :: 0 <= k < |lines| ==> NoBreak(lines[k])
    ensures SplitLines(Terminated(lines)) == lines
  {
    if lines != [] {
      var rest := Terminated(lines[1..]);
      var s := Terminated(lines);
      assert s == lines[0] + ("\n" + rest);
      FirstBreakAfterLine(lines[0], "\n" + rest);
      var i := |lines[0]|;
      assert s[i] == '\n';
      assert BreakLength(s, i) == 1;
      assert s[..i] == lines[0];
      assert s[i + 1..] == rest;
      SplitTerminated(lines[1..]);
    }
  }

  /** A text without line boundaries has its first boundary at its end. */
  lemma {:induction false} FirstBreakNone(s: string)
    requires NoBreak(s)
    ensures FirstBreak(s) == |s|
  {
    if s != [] {
      assert NoBreak(s[1..]) by {
        forall k | 0 <= k < |s[1..]|
          ensures !IsLineBreak(s[1..][k])
        {
          assert s[1..][k] == s[k + 1];
        }
      }
      FirstBreakNone(s[1..]);
    }
  }

  /** The lines joined by "\n" with no boundary after the last, the layout of a stripped output. */
  function Joined(lines: seq<string>): string {
    if lines == [] then [] else if |lines| == 1 then lines[0] else lines[0] + "\n" + Joined(lines[1..])
  }

  /**
   * Splitting lines joined by "\n" gives back exactly those lines, when the
   * last is not empty (an empty last line would leave a final boundary, which
   * `splitlines` drops).
   */
  lemma {:induction false} SplitJoined(lines: seq<string>)
    requires lines == [] || lines[|lines| - 1] != []
    requires forall k :: 0 <= k < |lines| ==> NoBreak(lines[k])
    ensures SplitLines(Joined(lines)) == lines
  {
    if lines == [] {
    } else if |lines| == 1 {
      FirstBreakNone(lines[0]);
    } else {
      var rest := Joined(lines[1..]);
      var s := Joined(lines);
      assert s == lines[0] + ("\n" + rest);
      FirstBreakAfterLine(lines[0], "\n" + rest);
      var i := |lines[0]|;
      assert s[i] == '\n';
      assert BreakLength(s, i) == 1;
      assert s[..i] == lines[0];
      assert s[i + 1..] == rest;
      SplitJoined(lines[1..]);
    }
  }
}
