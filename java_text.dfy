/**
 * The behaviour of the Java library calls the counting engine relies on:
 * `String.trim`, `String.split("\\s+")` and `BufferedReader.readLine`.
 */
module JavaText {
  import opened Units
  import opened WordRuns

  // ---------------------------------------------------------------- trim

  /** Number of trimmable units at the front of `s`. */
  function LeadingTrimmable(s: seq<Unit>): (n: nat)
    ensures n <= |s|
    ensures forall i :: 0 <= i < n ==> IsTrimmable(s[i])
    ensures n < |s| ==> !IsTrimmable(s[n])
  {
    if s == [] || !IsTrimmable(s[0]) then 0 else 1 + LeadingTrimmable(s[1..])
  }

  /** Number of trimmable units at the back of `s`. */
  function TrailingTrimmable(s: seq<Unit>): (n: nat)
    ensures n <= |s|
    ensures forall i :: |s| - n <= i < |s| ==> IsTrimmable(s[i])
    ensures n < |s| ==> !IsTrimmable(s[|s| - 1 - n])
  {
    if s == [] || !IsTrimmable(s[|s| - 1]) then 0 else 1 + TrailingTrimmable(s[..|s| - 1])
  }

  /**
   * `String.trim`: the middle of `s` left once every unit up to U+0020 is
   * stripped from both ends; empty exactly when `s` holds only such units.
   */
  function Trim(s: seq<Unit>): (t: seq<Unit>)
    ensures t == [] <==> forall i :: 0 <= i < |s| ==> IsTrimmable(s[i])
    ensures t != [] ==> !IsTrimmable(t[0]) && !IsTrimmable(t[|t| - 1])
    ensures t != [] ==> LeadingTrimmable(s) + |t| + TrailingTrimmable(s) == |s|
    ensures t != [] ==> t == s[LeadingTrimmable(s)..LeadingTrimmable(s) + |t|]
  {
    var a := LeadingTrimmable(s);
    if a == |s| then []
    else
      var b := |s| - TrailingTrimmable(s);
      assert a < b;
      assert s[a..b] == s[a..a + (b - a)];
      s[a..b]
  }

  // ---------------------------------------------------------------- split

  /** Index of the first `\s` unit of `s`, or `|s|` when there is none. */
  function FirstSpace(s: seq<Unit>): (i: nat)
    ensures i <= |s|
    ensures forall j :: 0 <= j < i ==> !IsRegexSpace(s[j])
    ensures i < |s| ==> IsRegexSpace(s[i])
  {
    if s == [] || IsRegexSpace(s[0]) then 0 else 1 + FirstSpace(s[1..])
  }

  /** End of the longest stretch of `\s` units that starts at `i` (the greedy match of `\s+`). */
  function SpaceRunEnd(s: seq<Unit>, i: nat): (j: nat)
    requires i <= |s|
    ensures i <= j <= |s|
    ensures forall m :: i <= m < j ==> IsRegexSpace(s[m])
    ensures j < |s| ==> !IsRegexSpace(s[j])
    decreases |s| - i
  {
    if i < |s| && IsRegexSpace(s[i]) then SpaceRunEnd(s, i + 1) else i
  }

  /**
   * The pieces of `s` between successive matches of `\s+`, leftmost match
   * first, including the empty pieces before a leading or after a trailing match.
   */
  function Fragments(s: seq<Unit>): (f: seq<seq<Unit>>)
    ensures |f| >= 1
    ensures forall m, k :: 0 <= m < |f| && 0 <= k < |f[m]| ==> !IsRegexSpace(f[m][k])
    decreases |s|
  {
    var i := FirstSpace(s);
    if i == |s| then [s]
    else
      var j := SpaceRunEnd(s, i);
      [s[..i]] + Fragments(s[j..])
  }

  /** Removes the empty strings at the end of a split result. */
  function DropTrailingEmpty(f: seq<seq<Unit>>): (g: seq<seq<Unit>>)
    ensures |g| <= |f| && g == f[..|g|]
    ensures g == [] || g[|g| - 1] != []
    ensures forall i :: |g| <= i < |f| ==> f[i] == []
  {
    if f != [] && f[|f| - 1] == [] then DropTrailingEmpty(f[..|f| - 1]) else f
  }

  /**
   * `String.split("\\s+")`: the whole string when nothing matches, otherwise
   * the fragments with trailing empty strings removed.
   */
  function Split(s: seq<Unit>): (pieces: seq<seq<Unit>>)
    ensures forall m, k :: 0 <= m < |pieces| && 0 <= k < |pieces[m]| ==> !IsRegexSpace(pieces[m][k])
    ensures FirstSpace(s) < |s| ==> pieces == [] || pieces[|pieces| - 1] != []
    ensures FirstSpace(s) == |s| ==> pieces == [s]
  {
    if FirstSpace(s) == |s| then [s] else DropTrailingEmpty(Fragments(s))
  }

  /** A word followed by a gap of `\s` units adds exactly one run to what follows the gap. */
  lemma RunCountAcrossGap(s: seq<Unit>, i: nat, j: nat)
    requires 0 < i < j <= |s|
    requires forall m :: 0 <= m < i ==> !IsRegexSpace(s[m])
    requires forall m :: i <= m < j ==> IsRegexSpace(s[m])
    ensures RunCount(RegexSpace, s) == 1 + RunCount(RegexSpace, s[j..])
  {
    var word, gap, rest := s[..i], s[i..j], s[j..];
    assert s == word + gap + rest;
    assert forall m :: 0 <= m < |word| ==> word[m] == s[m];
    assert forall m :: 0 <= m < |gap| ==> gap[m] == s[i + m];
    RunCountOfWord(RegexSpace, word);
    RunCountSeparated(RegexSpace, word, gap, rest);
  }

  /** A stretch that begins and ends with a non-`\s` unit splits into one non-empty fragment per run. */
  lemma {:induction false} FragmentsOfTrimmed(s: seq<Unit>)
    requires s != [] && !IsRegexSpace(s[0]) && !IsRegexSpace(s[|s| - 1])
    ensures forall m :: 0 <= m < |Fragments(s)| ==> Fragments(s)[m] != []
    ensures |Fragments(s)| == RunCount(RegexSpace, s)
    decreases |s|
  {
    var i := FirstSpace(s);
    if i == |s| {
      RunCountOfWord(RegexSpace, s);
    } else {
      var j := SpaceRunEnd(s, i);
      assert 0 < i < j < |s|;
      var rest := s[j..];
      RunCountAcrossGap(s, i, j);
      FragmentsOfTrimmed(rest);
      var f := Fragments(rest);
      assert Fragments(s) == [s[..i]] + f;
      forall k | 0 <= k < |Fragments(s)|
        ensures Fragments(s)[k] != []
      {
        if k > 0 { assert Fragments(s)[k] == f[k - 1]; }
      }
    }
  }

  /** On a trimmed, non-empty line, `split("\\s+")` yields exactly one piece per run of non-`\s` units. */
  lemma SplitCountsRuns(t: seq<Unit>)
    requires t != [] && !IsTrimmable(t[0]) && !IsTrimmable(t[|t| - 1])
    ensures |Split(t)| == RunCount(RegexSpace, t)
  {
    if FirstSpace(t) == |t| {
      RunCountOfWord(RegexSpace, t);
    } else {
      FragmentsOfTrimmed(t);
      var f := Fragments(t);
      assert DropTrailingEmpty(f) == f;
    }
  }

  // ---------------------------------------------------------------- readLine

  /** What one call of `readLine` gives: no more lines, or a line and where the next one starts. */
  datatype LineRead = EndOfStream | Line(text: seq<Unit>, next: nat)

  /** What `readLine` consumes after a line's text: nothing at end of input, or one terminator. */
  predicate IsTerminatorText(t: seq<Unit>) {
    t == [] || t == [LF] || t == [CR] || t == [CR, LF]
  }

  /** Index of the first line terminator at or after `pos`, or `|s|`. */
  function LineEnd(s: seq<Unit>, pos: nat): (e: nat)
    requires pos <= |s|
    ensures pos <= e <= |s|
    ensures forall i :: pos <= i < e ==> !IsLineTerminator(s[i])
    ensures e < |s| ==> IsLineTerminator(s[e])
    decreases |s| - pos
  {
    if pos == |s| || IsLineTerminator(s[pos]) then pos else LineEnd(s, pos + 1)
  }

  /** Where the terminator found at `e` ends: "\r\n" is taken as one terminator. */
  function TerminatorEnd(s: seq<Unit>, e: nat): (n: nat)
    requires e <= |s| && (e < |s| ==> IsLineTerminator(s[e]))
    ensures e <= n <= |s| && (e < |s| ==> e < n)
    ensures IsTerminatorText(s[e..n])
    ensures e < |s| ==> (n == e + 2 <==> s[e] == CR && e + 1 < |s| && s[e + 1] == LF)
  {
    if e == |s| then e
    else if s[e] == CR && e + 1 < |s| && s[e + 1] == LF then
      assert s[e..e + 2] == [CR, LF];
      e + 2
    else
      assert s[e..e + 1] == [s[e]];
      e + 1
  }

  /**
   * `readLine` on the units from `pos` on: null at end of input; otherwise the
   * units up to the next "\n", "\r" or "\r\n" (which is consumed but not
   * returned), or up to the end of input for a last unterminated line.
   */
  function ReadLine(s: seq<Unit>, pos: nat): (r: LineRead)
    requires pos <= |s|
    ensures r.EndOfStream? <==> pos == |s|
    ensures r.Line? ==> pos < r.next <= |s| && pos + |r.text| <= r.next
    ensures r.Line? ==> forall i :: 0 <= i < |r.text| ==> !IsLineTerminator(r.text[i])
    ensures r.Line? ==> s[pos..r.next] == r.text + s[pos + |r.text|..r.next]
    ensures r.Line? ==> IsTerminatorText(s[pos + |r.text|..r.next])
    ensures r.Line? && r.next < |s| ==> s[pos + |r.text|..r.next] != []
    ensures r.Line? && pos + |r.text| + 1 < |s| && s[pos + |r.text|] == CR && s[pos + |r.text| + 1] == LF ==>
              r.next == pos + |r.text| + 2
  {
    if pos == |s| then EndOfStream
    else
      var e := LineEnd(s, pos);
      var next := TerminatorEnd(s, e);
      assert s[pos..next] == s[pos..e] + s[e..next];
      Line(s[pos..e], next)
  }

  /** The lines successive `readLine` calls return from `pos` until null. */
  function Lines(s: seq<Unit>, pos: nat): (lines: seq<seq<Unit>>)
    requires pos <= |s|
    ensures |lines| <= |s| - pos
    ensures forall m, k :: 0 <= m < |lines| && 0 <= k < |lines[m]| ==> !IsLineTerminator(lines[m][k])
    decreases |s| - pos
  {
    match ReadLine(s, pos)
    case EndOfStream => []
    case Line(text, next) => [text] + Lines(s, next)
  }

  /**
   * Position `i` ends a line: a "\r", or a "\n" that is not the second half of
   * a "\r\n".
   */
  predicate EndsLineAt(s: seq<Unit>, i: int)
    requires 0 <= i < |s|
  {
    s[i] == CR || (s[i] == LF && (i == 0 || s[i - 1] != CR))
  }

  /** Number of positions from `i` on that end a line. */
  function TerminatorsFrom(s: seq<Unit>, i: nat): nat
    requires i <= |s|
    decreases |s| - i
  {
    if i == |s| then 0 else (if EndsLineAt(s, i) then 1 else 0) + TerminatorsFrom(s, i + 1)
  }

  /** The input ends with content that no terminator closes. */
  predicate HasUnterminatedTail(s: seq<Unit>) {
    s != [] && !IsLineTerminator(s[|s| - 1])
  }

  /** `pos` is the start of the input or lies just after a complete terminator. */
  predicate AtLineStart(s: seq<Unit>, pos: nat)
    requires pos <= |s|
  {
    pos == 0 || (IsLineTerminator(s[pos - 1]) && !(s[pos - 1] == CR && pos < |s| && s[pos] == LF))
  }

  lemma {:induction false} TerminatorsSkipText(s: seq<Unit>, pos: nat, e: nat)
    requires pos <= e <= |s|
    requires forall i :: pos <= i < e ==> !IsLineTerminator(s[i])
    ensures TerminatorsFrom(s, pos) == TerminatorsFrom(s, e)
    decreases e - pos
  {
    if pos < e {
      TerminatorsSkipText(s, pos + 1, e);
    }
  }

  /**
   * From a line start, `readLine` returns one line per terminator ("\r\n"
   * counted once) plus one for unterminated content at the end.
   */
  lemma {:induction false} LinesFromCount(s: seq<Unit>, pos: nat)
    requires pos <= |s| && AtLineStart(s, pos)
    ensures |Lines(s, pos)| == TerminatorsFrom(s, pos) + (if pos < |s| && HasUnterminatedTail(s) then 1 else 0)
    decreases |s| - pos
  {
    if pos < |s| {
      var e := LineEnd(s, pos);
      TerminatorsSkipText(s, pos, e);
      var r := ReadLine(s, pos);
      if e < |s| {
        assert EndsLineAt(s, e);
        if r.next == e + 2 {
          assert !EndsLineAt(s, e + 1);
        }
        LinesFromCount(s, r.next);
      }
    }
  }

  /** `readLine` until null returns as many lines as there are terminators, plus one for an unterminated tail. */
  lemma LineCount(s: seq<Unit>)
    ensures |Lines(s, 0)| == TerminatorsFrom(s, 0) + (if HasUnterminatedTail(s) then 1 else 0)
  {
    LinesFromCount(s, 0);
  }
}
