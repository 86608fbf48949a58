/**
 * The command layer around the counting engine: choosing a strategy from
 * the option flag, and turning the result into the one line that is printed.
 */
module Ccwc {
  import opened Units
  import opened Counter

  datatype Option<T> = None | Some(value: T)

  /**
   * The one input stream as each strategy sees it: its raw bytes, the units
   * a UTF-8 decoder yields, and the units the platform's default decoder yields.
   */
  datatype Source = Source(raw: Reading<Byte>, utf8: Reading<Unit>, native: Reading<Unit>)

  /** The flags that select a single-count strategy. */
  predicate IsCountOption(option: string) {
    option == "-c" || option == "-l" || option == "-w" || option == "-m"
  }

  /** The count a single-count option produces; -1 for a flag that selects nothing. */
  ghost function OptionCount(option: string, src: Source): int {
    if option == "-c" then ByteTotal(src.raw)
    else if option == "-l" then LineTotal(src.utf8)
    else if option == "-w" then WordTotal(src.utf8)
    else if option == "-m" then CharTotal(src.native)
    else -1
  }

  /** The result for an option: the fused three slots for no option, otherwise one slot. */
  ghost function CommandResult(option: string, src: Source): seq<int> {
    if option == "" then FusedCounts(src.utf8) else [OptionCount(option, src)]
  }

  /** The reading the selected strategy consumes failed. */
  ghost predicate SelectedReadFails(option: string, src: Source) {
    if option == "" || option == "-l" || option == "-w" then src.utf8.fails
    else if option == "-c" then src.raw.fails
    else option == "-m" && src.native.fails
  }

  // ------------------------------------------------------------ dispatch

  /** Runs the strategy a flag selects and stores its count in a one-slot array. */
  method GetResultFromOption(option: string, src: Source) returns (r: seq<int>)
    requires option != ""
    ensures r == CommandResult(option, src)
  {
    var count := new int[1];
    if option == "-c" {
      count[0] := GetCountByte(src.raw);
    } else if option == "-l" {
      count[0] := GetCountLine(src.utf8);
    } else if option == "-w" {
      count[0] := GetCountWord(src.utf8);
    } else if option == "-m" {
      count[0] := GetCountCharacter(src.native);
    } else {
      count[0] := -1;
    }
    r := count[..];
  }

  /** The fused scan when no option is given, otherwise the strategy the option selects. */
  method ProcessCommand(option: string, src: Source) returns (r: seq<int>)
    ensures r == CommandResult(option, src)
  {
    if option == "" {
      r := GetResultAll(src.utf8);
    } else {
      r := GetResultFromOption(option, src);
    }
  }

  /**
   * No option gives three slots (lines, words, bytes); every other option one
   * slot; a flag that is not one of the four gives exactly [-1].
   */
  lemma ResultShape(option: string, src: Source)
    ensures option == "" ==> |CommandResult(option, src)| == 3
    ensures option != "" ==> |CommandResult(option, src)| == 1
    ensures option != "" && !IsCountOption(option) ==> CommandResult(option, src) == [-1]
  {
  }

  /**
   * A result holds the sentinel -1 exactly when the flag is unknown or the
   * selected reading failed; every other slot is a count, at least 0.
   */
  lemma SentinelMeansFailure(option: string, src: Source)
    ensures (-1 in CommandResult(option, src))
              <==> (option != "" && !IsCountOption(option)) || SelectedReadFails(option, src)
    ensures forall i :: 0 <= i < |CommandResult(option, src)| ==> CommandResult(option, src)[i] >= -1
  {
    var r := CommandResult(option, src);
    if option == "" {
      assert r[0] == -1 <==> src.utf8.fails;
      assert r[1] >= 0 && r[2] >= 0;
    }
  }

  // ------------------------------------------------------------ formatting

  const CANNOT_READ: string := "Cannot read counts from input stream"

  predicate IsDigitString(t: string) {
    forall i :: 0 <= i < |t| ==> '0' <= t[i] <= '9'
  }

  predicate HasNoSpace(t: string) {
    forall i :: 0 <= i < |t| ==> t[i] != ' '
  }

  function DigitChar(d: int): char
    requires 0 <= d < 10
  {
    ('0' as int + d) as char
  }

  /** The decimal digits of `n`, most significant first. */
  function Digits(n: nat): (t: string)
    ensures t != [] && IsDigitString(t)
  {
    if n < 10 then [DigitChar(n)] else Digits(n / 10) + [DigitChar(n % 10)]
  }

  /** `Long.toString`, which `StringBuilder.append(long)` uses. */
  function LongToString(n: int): (t: string)
    ensures t != [] && HasNoSpace(t)
  {
    if n < 0 then "-" + Digits(-n) else Digits(n)
  }

  /** The string form of each count, in order. */
  function CountStrings(xs: seq<int>): (strs: seq<string>)
    ensures |strs| == |xs|
    ensures forall i :: 0 <= i < |xs| ==> strs[i] == LongToString(xs[i])
  {
    seq(|xs|, i requires 0 <= i < |xs| => LongToString(xs[i]))
  }

  /** `pieces` with a single space between neighbours. */
  function JoinWithSpaces(pieces: seq<string>): string {
    if pieces == [] then ""
    else if |pieces| == 1 then pieces[0]
    else JoinWithSpaces(pieces[..|pieces| - 1]) + " " + pieces[|pieces| - 1]
  }

  /** The counts line: every count in decimal, separated by single spaces. */
  function CountsLine(xs: seq<int>): string {
    JoinWithSpaces(CountStrings(xs))
  }

  /** One more slot adds a separator (except before the first) and one number to the counts line. */
  lemma CountsLineStep(xs: seq<int>, i: nat)
    requires i < |xs|
    ensures CountsLine(xs[..i + 1]) == (if i == 0 then "" else CountsLine(xs[..i]) + " ") + LongToString(xs[i])
    ensures xs[..i + 1] == xs[..i] + [xs[i]]
  {
    var pieces, prev := CountStrings(xs[..i + 1]), CountStrings(xs[..i]);
    assert |pieces| == i + 1 && |prev| == i;
    forall k | 0 <= k < i
      ensures pieces[k] == prev[k]
    {
      assert xs[..i + 1][k] == xs[..i][k];
    }
    assert pieces[..i] == prev;
    assert pieces[i] == LongToString(xs[i]);
  }

  /** What follows the counts: a space and the file name, or nothing for a null name. */
  function NameSuffix(fileName: Option<string>): string {
    match fileName
    case Some(name) => " " + name
    case None => ""
  }

  /** One line on the standard output stream or one on the standard error stream. */
  datatype Printed = Out(line: string) | Err(line: string)

  /**
   * Builds the counts line slot by slot and stops at the first -1; a -1
   * anywhere turns the whole result into the error message.
   */
  method PrintResults(result: seq<int>, fileName: Option<string>) returns (p: Printed)
    ensures -1 in result ==> p == Err(CANNOT_READ)
    ensures -1 !in result ==> p == Out(CountsLine(result) + NameSuffix(fileName))
  {
    var hasError := false;
    var countsToBePrinted := "";
    var i := 0;
    while i < |result|
      invariant 0 <= i <= |result|
      invariant !hasError
      invariant -1 !in result[..i]
      invariant countsToBePrinted == CountsLine(result[..i])
    {
      CountsLineStep(result, i);
      if result[i] == -1 {
        hasError := true;
        break;
      }
      if i != 0 {
        countsToBePrinted := countsToBePrinted + " ";
      }
      countsToBePrinted := countsToBePrinted + LongToString(result[i]);
      i := i + 1;
    }
    if hasError {
      assert result[i] == -1;
      p := Err(CANNOT_READ);
    } else {
      assert result[..i] == result;
      var textToBePrinted := "";
      if fileName.Some? {
        textToBePrinted := textToBePrinted + " " + fileName.value;
      }
      assert countsToBePrinted == CountsLine(result) && textToBePrinted == NameSuffix(fileName);
      p := Out(countsToBePrinted + textToBePrinted);
    }
  }

  // ------------------------------------------------------------ reading a line back

  /** Value of a string of decimal digits. */
  function DigitsValue(t: string): int {
    if t == [] then 0 else DigitsValue(t[..|t| - 1]) * 10 + (t[|t| - 1] as int - '0' as int)
  }

  /** Reads back what `LongToString` writes. */
  function ParseLong(t: string): int {
    if t != [] && t[0] == '-' then -DigitsValue(t[1..]) else DigitsValue(t)
  }

  /** Index of the last space of `t`, or -1. */
  function LastSpace(t: string): (k: int)
    ensures -1 <= k < |t|
    ensures k >= 0 ==> t[k] == ' '
    ensures forall i :: k < i < |t| ==> t[i] != ' '
  {
    if t == [] then -1
    else if t[|t| - 1] == ' ' then |t| - 1
    else LastSpace(t[..|t| - 1])
  }

  /** The pieces of `t` between single spaces. */
  function Fields(t: string): (f: seq<string>)
    ensures |f| >= 1
    decreases |t|
  {
    var k := LastSpace(t);
    if k < 0 then [t] else Fields(t[..k]) + [t[k + 1..]]
  }

  /** The numbers a counts line holds, field by field. */
  function ReadCounts(t: string): (xs: seq<int>)
    ensures |xs| == |Fields(t)|
  {
    var f := Fields(t);
    seq(|f|, i requires 0 <= i < |f| => ParseLong(f[i]))
  }

  lemma {:induction false} DigitsRoundTrip(n: nat)
    ensures DigitsValue(Digits(n)) == n
  {
    if n >= 10 {
      DigitsRoundTrip(n / 10);
      var t := Digits(n);
      assert t[..|t| - 1] == Digits(n / 10);
    }
  }

  /** `LongToString` loses nothing, negative numbers included. */
  lemma LongToStringRoundTrip(n: int)
    ensures ParseLong(LongToString(n)) == n
  {
    if n < 0 {
      DigitsRoundTrip(-n);
      assert LongToString(n)[1..] == Digits(-n);
    } else {
      DigitsRoundTrip(n);
    }
  }

  /** Appending a space and a space-free piece appends one field. */
  lemma FieldsAppend(t: string, piece: string)
    requires HasNoSpace(piece)
    ensures Fields(t + " " + piece) == Fields(t) + [piece]
  {
    var u := t + " " + piece;
    assert u[|t|] == ' ';
    assert forall i :: |t| < i < |u| ==> u[i] == piece[i - |t| - 1];
    assert LastSpace(u) == |t|;
    assert u[..|t|] == t && u[|t| + 1..] == piece;
  }

  /** Space-free pieces joined by single spaces split back into the same pieces. */
  lemma {:induction false} JoinThenSplit(pieces: seq<string>)
    requires pieces != []
    requires forall i :: 0 <= i < |pieces| ==> HasNoSpace(pieces[i])
    ensures Fields(JoinWithSpaces(pieces)) == pieces
  {
    if |pieces| == 1 {
      assert LastSpace(pieces[0]) == -1;
    } else {
      var init := pieces[..|pieces| - 1];
      JoinThenSplit(init);
      FieldsAppend(JoinWithSpaces(init), pieces[|pieces| - 1]);
      assert init + [pieces[|pieces| - 1]] == pieces;
    }
  }

  /** Every field of a counts line reads back as its count. */
  lemma CountsLineReadBack(xs: seq<int>)
    requires xs != []
    ensures Fields(CountsLine(xs)) == CountStrings(xs)
    ensures ReadCounts(CountsLine(xs)) == xs
  {
    JoinThenSplit(CountStrings(xs));
    var r := ReadCounts(CountsLine(xs));
    forall i | 0 <= i < |xs|
      ensures r[i] == xs[i]
    {
      LongToStringRoundTrip(xs[i]);
    }
  }

  /**
   * A printed line with a space-free file name splits into the counts' fields
   * followed by the name; a piped run, whose name is "", ends in one empty field.
   */
  lemma OutputLineFields(xs: seq<int>, name: string)
    requires xs != [] && HasNoSpace(name)
    ensures Fields(CountsLine(xs) + " " + name) == CountStrings(xs) + [name]
  {
    CountsLineReadBack(xs);
    FieldsAppend(CountsLine(xs), name);
  }
}
