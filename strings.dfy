/**
 * The parts of Python's `str` that the tool relies on: `strip()`, `lower()`,
 * `split(sep)` for a one-character separator, `sep.join(parts)` and `splitlines()`.
 */
module Strings {

  /** Python's `str.isspace` for one character: the characters `strip()` removes. */
  predicate IsSpace(c: char) {
    ('\t' <= c <= '\r') || ('\U{1C}' <= c <= ' ') || c == '\U{85}' || c == '\U{A0}' ||
    c == '\U{1680}' || ('\U{2000}' <= c <= '\U{200A}') || c == '\U{2028}' || c == '\U{2029}' ||
    c == '\U{202F}' || c == '\U{205F}' || c == '\U{3000}'
  }

  predicate AllSpace(s: string) {
    forall i :: 0 <= i < |s| ==> IsSpace(s[i])
  }

  /** Python's `str.lstrip()`: drops the leading whitespace and nothing else. */
  function TrimStart(s: string): (r: string)
    ensures |r| <= |s| && r == s[|s| - |r|..]
    ensures forall i :: 0 <= i < |s| - |r| ==> IsSpace(s[i])
    ensures r == [] || !IsSpace(r[0])
  {
    if s != [] && IsSpace(s[0]) then TrimStart(s[1..]) else s
  }

  /** Python's `str.rstrip()`: drops the trailing whitespace and nothing else. */
  function TrimEnd(s: string): (r: string)
    ensures r <= s
    ensures AllSpace(s[|r|..])
    ensures r == [] || !IsSpace(r[|r| - 1])
  {
    if s != [] && IsSpace(s[|s| - 1]) then TrimEnd(s[..|s| - 1]) else s
  }

  /** Python's `str.strip()` with no argument. */
  function Strip(s: string): string {
    TrimEnd(TrimStart(s))
  }

  /** `strip()` never lengthens, leaves no whitespace at either end and empties an all-whitespace string. */
  lemma StripShape(s: string)
    ensures |Strip(s)| <= |s|
    ensures Strip(s) == [] || (!IsSpace(Strip(s)[0]) && !IsSpace(Strip(s)[|Strip(s)| - 1]))
    ensures AllSpace(s) ==> Strip(s) == []
  {
  }

  lemma {:induction false} TrimStartOfPadded(pre: string, t: string)
    requires AllSpace(pre)
    requires t == [] || !IsSpace(t[0])
    ensures TrimStart(pre + t) == t
  {
    if pre != [] {
      assert (pre + t)[1..] == pre[1..] + t;
      TrimStartOfPadded(pre[1..], t);
    }
  }

  lemma {:induction false} TrimEndOfPadded(t: string, post: string)
    requires AllSpace(post)
    requires t == [] || !IsSpace(t[|t| - 1])
    ensures TrimEnd(t + post) == t
  {
    if post != [] {
      assert (t + post)[..|t + post| - 1] == t + post[..|post| - 1];
      TrimEndOfPadded(t, post[..|post| - 1]);
    } else {
      assert t + post == t;
    }
  }

  /** `rstrip()` never cuts into a prefix that ends with a non-whitespace character. */
  lemma TrimEndKeepsPrefix(prefix: string, rest: string)
    requires prefix != [] && !IsSpace(prefix[|prefix| - 1])
    ensures prefix <= TrimEnd(prefix + rest)
  {
    var t := prefix + rest;
    var r := TrimEnd(t);
    assert !IsSpace(t[|prefix| - 1]);
    assert |prefix| <= |r|;
    assert r[..|prefix|] == t[..|prefix|];
  }

  /**
   * Every string is whitespace, then a word that neither starts nor ends with
   * whitespace, then whitespace; `strip()` gives back exactly that word.
   */
  lemma StripOfPadded(pre: string, w: string, post: string)
    requires AllSpace(pre) && AllSpace(post)
    requires w == [] || (!IsSpace(w[0]) && !IsSpace(w[|w| - 1]))
    ensures Strip(pre + w + post) == w
  {
    if w == [] {
      assert pre + w + post == (pre + post) + [];
      TrimStartOfPadded(pre + post, []);
    } else {
      assert pre + w + post == pre + (w + post);
      TrimStartOfPadded(pre, w + post);
      TrimEndOfPadded(w, post);
    }
  }

  /** A string that neither starts nor ends with whitespace is its own `strip()`. */
  lemma StripUnpadded(w: string)
    requires w != [] && !IsSpace(w[0]) && !IsSpace(w[|w| - 1])
    ensures Strip(w) == w
  {
    assert "" + w + "" == w;
    StripOfPadded("", w, "");
  }

  /** `str.lower()` on one character; only the ASCII letters are mapped. */
  function LowerChar(c: char): char {
    if 'A' <= c <= 'Z' then (c as int + 32) as char else c
  }

  function Lower(s: string): string {
    seq(|s|, i requires 0 <= i < |s| => LowerChar(s[i]))
  }

  /** `lower()` keeps the length, turns each ASCII capital into its small letter and changes nothing else. */
  lemma LowerShape(s: string)
    ensures |Lower(s)| == |s|
    ensures forall i :: 0 <= i < |s| ==> !('A' <= Lower(s)[i] <= 'Z')
    ensures forall i :: 0 <= i < |s| && 'A' <= s[i] <= 'Z' ==> Lower(s)[i] as int == s[i] as int + 32
    ensures forall i :: 0 <= i < |s| && !('A' <= s[i] <= 'Z') ==> Lower(s)[i] == s[i]
  {
  }

  /** The text before the first `sep`, or all of `s` when it holds none. */
  function FirstSegment(s: string, sep: char): (r: string)
    ensures r <= s && sep !in r
    ensures |r| < |s| ==> s[|r|] == sep
  {
    if s == [] || s[0] == sep then [] else [s[0]] + FirstSegment(s[1..], sep)
  }

  /** The first segment is determined by the first separator. */
  lemma {:induction false} FirstSegmentOf(x: string, rest: string, sep: char)
    requires sep !in x
    requires rest == [] || rest[0] == sep
    ensures FirstSegment(x + rest, sep) == x
  {
    if x == [] {
      assert x + rest == rest;
    } else {
      assert x[0] in x;
      assert (x + rest)[1..] == x[1..] + rest;
      FirstSegmentOf(x[1..], rest, sep);
      assert x == [x[0]] + x[1..];
    }
  }

  /** Python's `sep.join(parts)`. */
  function JoinWith(parts: seq<string>, sep: string): (r: string)
    ensures |parts| == 0 ==> r == []
    ensures |parts| >= 1 ==> parts[0] <= r
    ensures |parts| >= 2 ==> |parts[0]| + |sep| <= |r| && r[|parts[0]|..|parts[0]| + |sep|] == sep
  {
    if |parts| == 0 then []
    else if |parts| == 1 then parts[0]
    else parts[0] + sep + JoinWith(parts[1..], sep)
  }

  lemma {:induction false} JoinWithAppend(parts: seq<string>, last: string, sep: string)
    requires |parts| >= 1
    ensures JoinWith(parts + [last], sep) == JoinWith(parts, sep) + sep + last
  {
    if |parts| > 1 {
      assert (parts + [last])[1..] == parts[1..] + [last];
      JoinWithAppend(parts[1..], last, sep);
    } else {
      assert (parts + [last])[1..] == [last];
    }
  }

  /** Python's `s.split(sep)` for a one-character separator: split then join gives `s` back. */
  function SplitOn(s: string, sep: char): (r: seq<string>)
    ensures |r| >= 1 && r[0] == FirstSegment(s, sep)
    ensures forall i :: 0 <= i < |r| ==> sep !in r[i]
    ensures JoinWith(r, [sep]) == s
    decreases |s|
  {
    var head := FirstSegment(s, sep);
    if |head| == |s| then
      assert head == s;
      [s]
    else
      var rest := SplitOn(s[|head| + 1..], sep);
      assert ([head] + rest)[1..] == rest;
      assert s == head + [sep] + s[|head| + 1..];
      [head] + rest
  }

  /** Splitting a segment, a separator and the rest yields the segment, then the rest split. */
  lemma SplitOnCons(x: string, tail: string, sep: char)
    requires sep !in x
    ensures SplitOn(x + [sep] + tail, sep) == [x] + SplitOn(tail, sep)
  {
    var s := x + [sep] + tail;
    FirstSegmentOf(x, [sep] + tail, sep);
    assert s == x + ([sep] + tail);
    assert s[|x| + 1..] == tail;
  }

  /** Joining parts free of the separator and splitting again gives the parts back. */
  lemma {:induction false} SplitOfJoin(parts: seq<string>, sep: char)
    requires |parts| >= 1
    requires forall i :: 0 <= i < |parts| ==> sep !in parts[i]
    ensures SplitOn(JoinWith(parts, [sep]), sep) == parts
  {
    if |parts| == 1 {
      FirstSegmentOf(parts[0], [], sep);
      assert parts[0] + [] == parts[0];
    } else {
      SplitOnCons(parts[0], JoinWith(parts[1..], [sep]), sep);
      SplitOfJoin(parts[1..], sep);
      assert parts == [parts[0]] + parts[1..];
    }
  }

  lemma {:induction false} JoinEndsWithLast(parts: seq<string>, sep: char)
    requires |parts| >= 1
    ensures var s := JoinWith(parts, [sep]); var last := parts[|parts| - 1];
      |last| <= |s| && s[|s| - |last|..] == last && (|parts| > 1 ==> |last| < |s| && s[|s| - |last| - 1] == sep)
  {
    if |parts| > 1 {
      var init := parts[..|parts| - 1];
      assert parts == init + [parts[|parts| - 1]];
      JoinWithAppend(init, parts[|parts| - 1], [sep]);
    }
  }

  /** Python's `s.split(sep)[-1]`: the text after the last `sep`. */
  function LastSegment(s: string, sep: char): (r: string)
    ensures sep !in r
    ensures |r| <= |s| && s[|s| - |r|..] == r
    ensures |r| < |s| ==> s[|s| - |r| - 1] == sep
  {
    var parts := SplitOn(s, sep);
    JoinEndsWithLast(parts, sep);
    parts[|parts| - 1]
  }

  /** The characters at which `str.splitlines` breaks a line; "\r\n" counts as one break. */
  predicate IsLineBreak(c: char) {
    ('\n' <= c <= '\r') || ('\U{1C}' <= c <= '\U{1E}') || c == '\U{85}' || c == '\U{2028}' || c == '\U{2029}'
  }

  predicate NoLineBreak(line: string) {
    forall j :: 0 <= j < |line| ==> !IsLineBreak(line[j])
  }

  /** The index of the first line break of `s`, or `|s|` when it has none. */
  function LineEnd(s: string): (i: nat)
    ensures i <= |s| && NoLineBreak(s[..i])
    ensures i < |s| ==> IsLineBreak(s[i])
  {
    if s == [] then 0
    else if IsLineBreak(s[0]) then 0
    else
      var k := LineEnd(s[1..]);
      assert s[..k + 1] == [s[0]] + s[1..][..k];
      k + 1
  }

  /** `str.splitlines()`: the lines of `s` without their breaks; a final break adds no empty line. */
  function SplitLines(s: string): (r: seq<string>)
    ensures forall k :: 0 <= k < |r| ==> NoLineBreak(r[k])
    ensures r == [] <==> s == []
    decreases |s|
  {
    if s == [] then []
    else
      var i := LineEnd(s);
      if i == |s| then
        assert s[..i] == s;
        [s]
      else
        var width := if s[i] == '\r' && i + 1 < |s| && s[i + 1] == '\n' then 2 else 1;
        [s[..i]] + SplitLines(s[i + width..])
  }

  lemma {:induction false} LineEndOf(line: string, rest: string)
    requires NoLineBreak(line)
    requires rest == [] || IsLineBreak(rest[0])
    ensures LineEnd(line + rest) == |line|
  {
    if line != [] {
      assert (line + rest)[1..] == line[1..] + rest;
      LineEndOf(line[1..], rest);
    }
  }

  /** A non-empty text without a break is one line. */
  lemma SplitLinesOfLine(line: string)
    requires line != [] && NoLineBreak(line)
    ensures SplitLines(line) == [line]
  {
    LineEndOf(line, []);
    assert line + [] == line;
  }

  /** A line ended by a one-character break (other than a '\r' that starts "\r\n") comes first, then the lines of the rest. */
  lemma SplitLinesAtBreak(line: string, brk: char, rest: string)
    requires NoLineBreak(line) && IsLineBreak(brk)
    requires !(brk == '\r' && rest != [] && rest[0] == '\n')
    ensures SplitLines(line + [brk] + rest) == [line] + SplitLines(rest)
  {
    var s := line + [brk] + rest;
    assert s == line + ([brk] + rest);
    LineEndOf(line, [brk] + rest);
    assert s[..|line|] == line && s[|line|] == brk;
    assert s[|line| + 1..] == rest;
  }

  /** A line ended by "\r\n" comes first, then the lines of the rest: "\r\n" is one break. */
  lemma SplitLinesAtCrLf(line: string, rest: string)
    requires NoLineBreak(line)
    ensures SplitLines(line + "\r\n" + rest) == [line] + SplitLines(rest)
  {
    var s := line + "\r\n" + rest;
    assert s == line + ("\r\n" + rest);
    LineEndOf(line, "\r\n" + rest);
    assert s[..|line|] == line && s[|line|] == '\r' && s[|line| + 1] == '\n';
    assert s[|line| + 2..] == rest;
  }

  /** Lines without breaks, joined with "\n" and ended by one more "\n", split back into the same lines. */
  lemma {:induction false} SplitLinesOfJoined(lines: seq<string>)
    requires |lines| >= 1
    requires forall k :: 0 <= k < |lines| ==> NoLineBreak(lines[k])
    ensures SplitLines(JoinWith(lines, "\n") + "\n") == lines
  {
    var line := lines[0];
    var text := JoinWith(lines, "\n") + "\n";
    if |lines| == 1 {
      assert text == line + ['\n'] + [];
      SplitLinesAtBreak(line, '\n', []);
    } else {
      var rest := lines[1..];
      var tail := JoinWith(rest, "\n") + "\n";
      assert text == line + ['\n'] + tail;
      SplitLinesAtBreak(line, '\n', tail);
      SplitLinesOfJoined(rest);
      assert lines == [line] + rest;
    }
  }
}
