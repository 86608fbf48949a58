/**
 * The five counting strategies. Each scans its input once, keeps a counter or
 * a small array of counters, and yields -1 in place of a count when reading
 * fails.
 */
module Counter {
  import opened Units
  import opened WordRuns
  import opened JavaText

  /**
   * What a reader delivers: `items`, then either end of input (`fails` false)
   * or an IOException on the next read (`fails` true).
   */
  datatype Reading<T> = Reading(items: seq<T>, fails: bool)

  // ------------------------------------------------------------ specification

  /** Number of line feeds in `s`. */
  function NewlineCount(s: seq<Unit>): nat {
    if s == [] then 0 else NewlineCount(s[..|s| - 1]) + (if s[|s| - 1] == LF then 1 else 0)
  }

  /** Sum, over the units of `s`, of the UTF-8 length of each unit taken on its own. */
  function Utf8Size(s: seq<Unit>): nat {
    if s == [] then 0 else Utf8Size(s[..|s| - 1]) + Utf8Length(s[|s| - 1])
  }

  /** Some non-whitespace unit comes after the last line feed of `s` (anywhere, if there is none). */
  ghost predicate OpenLine(s: seq<Unit>) {
    exists i :: 0 <= i < |s| && !IsWhitespace(s[i]) && forall m :: i < m < |s| ==> s[m] != LF
  }

  /**
   * The negation of the fused scan's `isNewLine` flag after `s`: a line feed
   * closes the line, other whitespace leaves it as it was, anything else opens it.
   */
  function LineOpen(s: seq<Unit>): bool {
    if s == [] then false
    else
      var c := s[|s| - 1];
      if c == LF then false else if IsWhitespace(c) then LineOpen(s[..|s| - 1]) else true
  }

  /** The lines slot of the fused scan: one per line feed, plus one for an open last line. */
  function FusedLines(s: seq<Unit>): nat {
    NewlineCount(s) + (if LineOpen(s) then 1 else 0)
  }

  /**
   * The fused result [lines, words, bytes]. A failure overwrites only the lines
   * slot; the other two keep what was counted before the failure.
   */
  ghost function FusedCounts(rd: Reading<Unit>): seq<int> {
    var s := rd.items;
    [if rd.fails then -1 else FusedLines(s), RunCount(JavaWhitespace, s), Utf8Size(s)]
  }

  /** `-c`: the number of bytes. */
  ghost function ByteTotal(rd: Reading<Byte>): int {
    if rd.fails then -1 else |rd.items|
  }

  /** `-l`: line terminators ("\r\n" once) plus one for an unterminated tail. */
  ghost function LineTotal(rd: Reading<Unit>): int {
    if rd.fails then -1
    else TerminatorsFrom(rd.items, 0) + (if HasUnterminatedTail(rd.items) then 1 else 0)
  }

  /** Sum over `lines` of the runs of non-`\s` units in each trimmed line. */
  function WordsInLines(lines: seq<seq<Unit>>): nat {
    if lines == [] then 0 else RunCount(RegexSpace, Trim(lines[0])) + WordsInLines(lines[1..])
  }

  /** `-w`: the words of every line `readLine` returns. */
  ghost function WordTotal(rd: Reading<Unit>): int {
    if rd.fails then -1 else WordsInLines(Lines(rd.items, 0))
  }

  /** `-m`: the number of decoded units. */
  ghost function CharTotal(rd: Reading<Unit>): int {
    if rd.fails then -1 else |rd.items|
  }

  // ------------------------------------------------------------ lemmas

  /** How one more unit changes whether the last line is open. */
  lemma OpenLineStep(p: seq<Unit>, c: Unit)
    ensures OpenLine(p + [c]) == if c == LF then false else if IsWhitespace(c) then OpenLine(p) else true
  {
    var s := p + [c];
    if c == LF {
      assert s[|p|] == LF;
    } else if IsWhitespace(c) {
      if OpenLine(s) {
        var i :| 0 <= i < |s| && !IsWhitespace(s[i]) && forall m :: i < m < |s| ==> s[m] != LF;
        assert i < |p| && p[i] == s[i];
        assert forall m :: i < m < |p| ==> p[m] == s[m];
      }
      if OpenLine(p) {
        var i :| 0 <= i < |p| && !IsWhitespace(p[i]) && forall m :: i < m < |p| ==> p[m] != LF;
        assert s[i] == p[i];
        assert forall m :: i < m < |s| ==> s[m] != LF;
      }
    } else {
      assert !IsWhitespace(s[|p|]);
    }
  }

  /** The flag the scan keeps means exactly that a non-whitespace unit follows the last line feed. */
  lemma {:induction false} LineOpenMeans(s: seq<Unit>)
    ensures LineOpen(s) == OpenLine(s)
  {
    if s != [] {
      var p, c := s[..|s| - 1], s[|s| - 1];
      LineOpenMeans(p);
      OpenLineStep(p, c);
      assert p + [c] == s;
    }
  }

  /** What one more unit adds to each quantity the fused scan keeps. */
  lemma ScanStep(s: seq<Unit>, i: nat)
    requires i < |s|
    ensures NewlineCount(s[..i + 1]) == NewlineCount(s[..i]) + (if s[i] == LF then 1 else 0)
    ensures Utf8Size(s[..i + 1]) == Utf8Size(s[..i]) + Utf8Length(s[i])
    ensures RunCount(JavaWhitespace, s[..i + 1]) == RunCount(JavaWhitespace, s[..i])
              + (if !IsWhitespace(s[i]) && (i == 0 || IsWhitespace(s[i - 1])) then 1 else 0)
    ensures LineOpen(s[..i + 1]) == if s[i] == LF then false else if IsWhitespace(s[i]) then LineOpen(s[..i]) else true
  {
    var p := s[..i + 1];
    assert |p| == i + 1 && p[..i] == s[..i] && p[i] == s[i];
    assert StartsRun(JavaWhitespace, p, i) == (!IsWhitespace(s[i]) && (i == 0 || IsWhitespace(s[i - 1])));
  }

  /** Empty input, or input of whitespace other than line feeds, has no lines. */
  lemma {:induction false} BlankInputHasNoLines(s: seq<Unit>)
    requires forall i :: 0 <= i < |s| ==> IsWhitespace(s[i]) && s[i] != LF
    ensures FusedLines(s) == 0
  {
    if s != [] {
      BlankInputHasNoLines(s[..|s| - 1]);
    }
  }

  /** The per-unit UTF-8 lengths add up to the length of the concatenated per-unit encodings. */
  function EncodeUnits(s: seq<Unit>): (bs: seq<Byte>)
    ensures |bs| == Utf8Size(s)
  {
    if s == [] then [] else EncodeUnits(s[..|s| - 1]) + EncodeUnit(s[|s| - 1])
  }

  /**
   * A supplementary character, read as its two surrogates, adds 2 to the bytes
   * slot wherever it occurs, where its UTF-8 encoding has 4 bytes.
   */
  lemma SupplementaryCharacterCountsTwoBytes(p: seq<Unit>, hi: Unit, lo: Unit)
    requires 0xD800 <= hi <= 0xDBFF && 0xDC00 <= lo <= 0xDFFF
    ensures Utf8Size(p + [hi, lo]) == Utf8Size(p) + 2
  {
    var q := p + [hi, lo];
    assert q[..|q| - 1] == p + [hi];
    assert (p + [hi])[..|p|] == p;
  }

  /** Whitespace after the last line feed does not open a line: "a\n " has one line. */
  lemma TrailingBlankAfterNewline()
    ensures FusedLines([0x61, LF, SPACE]) == 1
  {
    var s: seq<Unit> := [0x61, LF, SPACE];
    assert s[..0] == [] && s[..3] == s;
    ScanStep(s, 0);
    ScanStep(s, 1);
    ScanStep(s, 2);
  }

  /** A lone "\r" ends a line for `readLine` but not for the fused scan. */
  lemma CarriageReturnRulesDiffer()
    ensures LineTotal(Reading([0x61, CR, 0x62], false)) == 2
    ensures FusedCounts(Reading([0x61, CR, 0x62], false))[0] == 1
  {
    var s: seq<Unit> := [0x61, CR, 0x62];
    assert s[..0] == [] && s[..3] == s;
    ScanStep(s, 0);
    ScanStep(s, 1);
    ScanStep(s, 2);
    assert EndsLineAt(s, 1) && !EndsLineAt(s, 0) && !EndsLineAt(s, 2);
    assert TerminatorsFrom(s, 3) == 0;
    assert TerminatorsFrom(s, 2) == 0;
    assert TerminatorsFrom(s, 1) == 1;
  }

  /** One step of `Lines`: the line `readLine` returns at `pos`, then the lines after it. */
  lemma LinesUnfold(s: seq<Unit>, pos: nat)
    requires pos <= |s|
    ensures ReadLine(s, pos).EndOfStream? ==> Lines(s, pos) == []
    ensures ReadLine(s, pos).Line? ==> Lines(s, pos) == [ReadLine(s, pos).text] + Lines(s, ReadLine(s, pos).next)
  {
  }

  /** Word count of a list of lines, one line at a time. */
  lemma WordsInLinesCons(line: seq<Unit>, rest: seq<seq<Unit>>)
    ensures WordsInLines([line] + rest) == RunCount(RegexSpace, Trim(line)) + WordsInLines(rest)
  {
    assert ([line] + rest)[1..] == rest;
  }

  /** Every unit of `s` up to U+0020 is a `\s` unit: no control other than tab, LF, VT, FF and CR. */
  predicate ControlsAreSpaces(s: seq<Unit>) {
    forall i :: 0 <= i < |s| ==> IsTrimmable(s[i]) ==> IsRegexSpace(s[i])
  }

  /** When what `trim` strips is all `\s`, trimming a line keeps its runs of non-`\s` units. */
  lemma TrimKeepsRuns(t: seq<Unit>)
    requires ControlsAreSpaces(t)
    ensures RunCount(RegexSpace, Trim(t)) == RunCount(RegexSpace, t)
  {
    var m := Trim(t);
    if m == [] {
      RunCountOfBlanks(RegexSpace, t);
    } else {
      var a := LeadingTrimmable(t);
      var lead, trail := t[..a], t[a + |m|..];
      assert t == lead + m + trail;
      RunCountPadded(RegexSpace, lead, m, trail);
    }
  }

  lemma ControlsAreSpacesSlice(s: seq<Unit>, i: nat, j: nat)
    requires i <= j <= |s| && ControlsAreSpaces(s)
    ensures ControlsAreSpaces(s[i..j])
  {
    assert forall m :: 0 <= m < j - i ==> s[i..j][m] == s[i + m];
  }

  lemma TerminatorIsSpace(t: seq<Unit>)
    requires IsTerminatorText(t)
    ensures forall i :: 0 <= i < |t| ==> IsRegexSpace(t[i])
  {
  }

  /** The runs from `pos` on: those of the first line, trimmed, and those after its terminator. */
  lemma LineThenRest(s: seq<Unit>, pos: nat)
    requires pos < |s| && ControlsAreSpaces(s)
    ensures RunCount(RegexSpace, s[pos..])
              == RunCount(RegexSpace, Trim(ReadLine(s, pos).text)) + RunCount(RegexSpace, s[ReadLine(s, pos).next..])
  {
    var r := ReadLine(s, pos);
    var e := pos + |r.text|;
    var text, term, rest := s[pos..e], s[e..r.next], s[r.next..];
    assert text == r.text;
    assert s[pos..] == text + term + rest;
    ControlsAreSpacesSlice(s, pos, e);
    TerminatorIsSpace(term);
    TrimKeepsRuns(text);
    RunCountSeparated(RegexSpace, text, term, rest);
  }

  /**
   * When what `trim` strips is all `\s`, the words of the lines from `pos`
   * on are the runs of non-`\s` units of the rest of the input: terminators
   * are `\s` too, so cutting into lines splits no run.
   */
  lemma {:induction false} WordsInLinesAreRuns(s: seq<Unit>, pos: nat)
    requires pos <= |s| && ControlsAreSpaces(s)
    ensures WordsInLines(Lines(s, pos)) == RunCount(RegexSpace, s[pos..])
    decreases |s| - pos
  {
    LinesUnfold(s, pos);
    if pos == |s| {
      assert s[pos..] == [];
    } else {
      var r := ReadLine(s, pos);
      WordsInLinesAreRuns(s, r.next);
      WordsInLinesCons(r.text, Lines(s, r.next));
      LineThenRest(s, pos);
    }
  }

  /** Over input whose only controls are `\s`, `-w` counts the runs of non-`\s` units of the whole input. */
  lemma WordTotalIsRunCount(rd: Reading<Unit>)
    requires !rd.fails && ControlsAreSpaces(rd.items)
    ensures WordTotal(rd) == RunCount(RegexSpace, rd.items)
  {
    WordsInLinesAreRuns(rd.items, 0);
    assert rd.items[0..] == rd.items;
  }

  /** Runs depend only on which units are blank. */
  lemma {:induction false} RunCountSameBlanks(s: seq<Unit>)
    requires forall i :: 0 <= i < |s| ==> IsWhitespace(s[i]) == IsRegexSpace(s[i])
    ensures RunCount(JavaWhitespace, s) == RunCount(RegexSpace, s)
  {
    if s != [] {
      RunCountSameBlanks(s[..|s| - 1]);
    }
  }

  /**
   * Where `Character.isWhitespace` and `\s` agree on every unit and the only
   * controls are `\s` (plain printable ASCII with tabs and line breaks, say),
   * `-w` and the words slot of the fused scan give the same number.
   */
  lemma WordCountsAgree(rd: Reading<Unit>)
    requires !rd.fails && ControlsAreSpaces(rd.items)
    requires forall i :: 0 <= i < |rd.items| ==> IsWhitespace(rd.items[i]) == IsRegexSpace(rd.items[i])
    ensures WordTotal(rd) == FusedCounts(rd)[1]
  {
    WordTotalIsRunCount(rd);
    RunCountSameBlanks(rd.items);
  }

  lemma {:induction false} NewlineCountAppend(a: seq<Unit>, b: seq<Unit>)
    ensures NewlineCount(a + b) == NewlineCount(a) + NewlineCount(b)
  {
    if b == [] {
      assert a + b == a;
    } else {
      NewlineCountAppend(a, b[..|b| - 1]);
      assert (a + b)[..|a + b| - 1] == a + b[..|b| - 1];
    }
  }

  /** Without carriage returns, the terminators `readLine` sees are exactly the line feeds. */
  lemma {:induction false} TerminatorsAreNewlines(s: seq<Unit>, i: nat)
    requires i <= |s|
    requires forall j :: 0 <= j < |s| ==> s[j] != CR
    ensures TerminatorsFrom(s, i) == NewlineCount(s[i..])
    decreases |s| - i
  {
    if i < |s| {
      TerminatorsAreNewlines(s, i + 1);
      NewlineCountAppend([s[i]], s[i + 1..]);
      assert s[i..] == [s[i]] + s[i + 1..];
      assert NewlineCount([s[i]]) == if s[i] == LF then 1 else 0 by {
        assert [s[i]][..0] == [];
      }
    }
  }

  /**
   * Without carriage returns, and unless the input ends in whitespace other
   * than a line feed, `-l` and the lines slot of the fused scan agree.
   */
  lemma LineCountsAgree(rd: Reading<Unit>)
    requires !rd.fails
    requires forall j :: 0 <= j < |rd.items| ==> rd.items[j] != CR
    requires rd.items != [] ==> rd.items[|rd.items| - 1] == LF || !IsWhitespace(rd.items[|rd.items| - 1])
    ensures LineTotal(rd) == FusedCounts(rd)[0]
  {
    var s := rd.items;
    TerminatorsAreNewlines(s, 0);
    assert s[0..] == s;
  }

  /** The words from a line start: the pieces `split` cuts the first trimmed line into, then the rest. */
  lemma LineWords(s: seq<Unit>, pos: nat)
    requires pos <= |s| && ReadLine(s, pos).Line?
    ensures var r := ReadLine(s, pos);
      var line := Trim(r.text);
      WordsInLines(Lines(s, pos)) == (if line == [] then 0 else |Split(line)|) + WordsInLines(Lines(s, r.next))
  {
    var r := ReadLine(s, pos);
    LinesUnfold(s, pos);
    WordsInLinesCons(r.text, Lines(s, r.next));
    var line := Trim(r.text);
    if line != [] {
      SplitCountsRuns(line);
    }
  }

  // ------------------------------------------------------------ strategies

  /**
   * The default scan: lines, words and bytes in one pass over the UTF-8
   * decoded units, updating a three-slot array in place.
   */
  method GetResultAll(rd: Reading<Unit>) returns (r: seq<int>)
    ensures r == FusedCounts(rd)
  {
    var counts := new int[3];
    counts[0], counts[1], counts[2] := 0, 0, 0;
    var s := rd.items;
    var inWord := false;
    var isNewLine := true;
    var i := 0;
    while i < |s|
      invariant 0 <= i <= |s|
      invariant counts.Length == 3
      invariant counts[0] == NewlineCount(s[..i])
      invariant counts[1] == RunCount(JavaWhitespace, s[..i])
      invariant counts[2] == Utf8Size(s[..i])
      invariant inWord == (i > 0 && !IsWhitespace(s[i - 1]))
      invariant isNewLine == !LineOpen(s[..i])
    {
      var c := s[i];
      ScanStep(s, i);
      var bytes := EncodeUnit(c);
      counts[2] := counts[2] + |bytes|;
      if IsWhitespace(c) {
        if inWord {
          inWord := false;
        }
        if c == LF {
          counts[0] := counts[0] + 1;
          isNewLine := true;
        }
      } else {
        if !inWord {
          inWord := true;
          counts[1] := counts[1] + 1;
        }
        isNewLine := false;
      }
      i := i + 1;
    }
    assert s[..i] == s;
    if rd.fails {
      counts[0] := -1;
    } else if !isNewLine {
      counts[0] := counts[0] + 1;
    }
    assert counts[..] == [counts[0], counts[1], counts[2]];
    r := counts[..];
  }

  /** `-c`: counts every raw byte until end of input. */
  method GetCountByte(rd: Reading<Byte>) returns (r: int)
    ensures r == ByteTotal(rd)
    ensures r == -1 <==> rd.fails
  {
    var byteCount := 0;
    var i := 0;
    while i < |rd.items|
      invariant 0 <= i <= |rd.items|
      invariant byteCount == i
    {
      byteCount := byteCount + 1;
      i := i + 1;
    }
    if rd.fails {
      return -1;
    }
    return byteCount;
  }

  /** `-l`: calls `readLine` until it returns null, counting the lines. */
  method GetCountLine(rd: Reading<Unit>) returns (r: int)
    ensures r == LineTotal(rd)
    ensures r == -1 <==> rd.fails
  {
    var s := rd.items;
    var lineCount := 0;
    var pos := 0;
    while ReadLine(s, pos).Line?
      invariant pos <= |s|
      invariant lineCount + |Lines(s, pos)| == |Lines(s, 0)|
      decreases |s| - pos
    {
      lineCount := lineCount + 1;
      pos := ReadLine(s, pos).next;
    }
    if rd.fails {
      return -1;
    }
    LineCount(s);
    return lineCount;
  }

  /**
   * `-w`: for each line `readLine` returns, trims it and, unless that leaves
   * nothing, adds the number of pieces `split("\\s+")` cuts it into.
   */
  method GetCountWord(rd: Reading<Unit>) returns (r: int)
    ensures r == WordTotal(rd)
    ensures r == -1 <==> rd.fails
  {
    var s := rd.items;
    var wordCount := 0;
    var pos := 0;
    var current := ReadLine(s, pos);
    while current.Line?
      invariant pos <= |s| && current == ReadLine(s, pos)
      invariant wordCount + WordsInLines(Lines(s, pos)) == WordsInLines(Lines(s, 0))
      decreases |s| - pos
    {
      LineWords(s, pos);
      var line := Trim(current.text);
      if line != [] {
        var words := Split(line);
        wordCount := wordCount + |words|;
      }
      pos := current.next;
      current := ReadLine(s, pos);
    }
    LinesUnfold(s, pos);
    if rd.fails {
      return -1;
    }
    return wordCount;
  }

  /** `-m`: counts every decoded unit until end of input. */
  method GetCountCharacter(rd: Reading<Unit>) returns (r: int)
    ensures r == CharTotal(rd)
    ensures r == -1 <==> rd.fails
  {
    var charCount := 0;
    var i := 0;
    while i < |rd.items|
      invariant 0 <= i <= |rd.items|
      invariant charCount == i
    {
      charCount := charCount + 1;
      i := i + 1;
    }
    if rd.fails {
      return -1;
    }
    return charCount;
  }
}
