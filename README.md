# ccwc counting core

`ccwc` is a Java clone of the Unix `wc` utility (`src/UnixToolCcwc.java`).
Given an option flag and an input stream it computes either the three
default counts (lines, words, bytes) in one fused pass, or one count selected
by `-c` (bytes), `-l` (lines), `-w` (words) or `-m` (characters), and prints
them on one line followed by the file name. A count of `-1` is the sentinel
for "reading failed"; any `-1` in a result makes the program print
`Cannot read counts from input stream` on the error stream instead.

This project models that counting core in Dafny:

- `units.dfy` (module `Units`): UTF-16 code units and bytes, the character
  classes the engine uses (`Character.isWhitespace`, the regular-expression
  class `\s`, what `String.trim` strips, the `readLine` terminators), and the
  per-unit UTF-8 encoding the fused scan measures.
- `word_runs.dfy` (module `WordRuns`): a word as a maximal run of non-blank
  units, for either notion of blank, and how runs combine under concatenation.
- `java_text.dfy` (module `JavaText`): `String.trim`, `String.split("\\s+")`
  and `BufferedReader.readLine` as functions over unit sequences.
- `counter.dfy` (module `Counter`): the five counting strategies as methods
  with the source's loops and counters, each proved equal to a specification
  function, plus lemmas relating the strategies to one another.
- `ccwc.dfy` (module `Ccwc`): option dispatch (`processCommand`,
  `getResultFromOption`) and the formatting of `printResults`, with a proof
  that the printed counts line reads back as the counts.

An input stream is modelled as a `Reading`: the items a reader delivers, then
either end of input or an `IOException` on the next read. A `Source` gives
the three views of one stream the strategies use: the raw bytes (`-c`), the
units a UTF-8 decoder yields (default, `-l`, `-w`), and the units the
platform's default decoder yields (`-m`).

Points where the code behaves differently from what a reader of `wc` might
expect; the model follows the code:

- The fused scan counts one line per `\n`, plus one more only when a
  non-whitespace unit follows the last `\n`. So `"a\n "` has one line
  (`Counter.TrailingBlankAfterNewline`), not two.
- The bytes slot of the fused scan sums the UTF-8 length of each unit taken
  on its own. A lone surrogate encodes as `?`, so a supplementary character
  (two surrogates) adds 2, not 4 (`Counter.SupplementaryCharacterCountsTwoBytes`).
- When the fused scan fails, only the lines slot becomes `-1`; the words and
  bytes slots keep the partial counts. `printResults` still reports the error.
- `-l` follows `readLine`, for which a lone `\r` ends a line, whereas the
  fused scan only counts `\n` (`Counter.CarriageReturnRulesDiffer`).
- A piped run passes the file name `""`, so its output line ends in a space.

## Model

| member | source | states |
|---|---|---|
| Units.EncodeUnit | src/UnixToolCcwc.java:129 | the encoding of one unit has 1, 2 or 3 bytes by the unit's range, with well-formed lead and continuation bytes; a lone surrogate becomes the single byte `?` |
| Units.EncodeUnitRoundTrip | src/UnixToolCcwc.java:129 | decoding a unit's encoding gives the unit back for every non-surrogate, and `?` for a surrogate |
| Units.IsWhitespace | src/UnixToolCcwc.java:132 | `Character.isWhitespace` on one unit: every `\s` unit is whitespace; among ASCII units exactly the `\s` units and U+001C..U+001F are; no surrogate is |
| Units.IsRegexSpace | src/UnixToolCcwc.java:195 | the class `\s` holds exactly space, tab, `\n`, vertical tab, form feed and `\r` |
| Units.IsTrimmable | src/UnixToolCcwc.java:193 | what `trim` strips includes every `\s` unit and lies within ASCII |
| Units.Utf8Length | src/UnixToolCcwc.java:129-130 | `bytes.length` for one unit: 1 to 3; for a non-surrogate 1 exactly below U+0080 and at most 2 exactly below U+0800; 1 for a lone surrogate (its `?`) |
| WordRuns.RunCountAppend | src/UnixToolCcwc.java:132-146 | the runs of `a + b` are those of `a` plus those of `b`, less one exactly when a run straddles the seam |
| WordRuns.RunCountPositive | src/UnixToolCcwc.java:140-144 | any non-blank unit makes the word count at least 1 |
| WordRuns.RunCountOfWord | src/UnixToolCcwc.java:195-196 | a non-empty stretch without blanks is exactly one word |
| WordRuns.RunCountOfBlanks | src/UnixToolCcwc.java:132-135 | a stretch of blanks holds no word |
| WordRuns.RunCountPadded | src/UnixToolCcwc.java:193-196 | blank units on either side of a stretch add no word to it |
| WordRuns.RunCountSeparated | src/UnixToolCcwc.java:190-199 | stretches separated by blank units (a line terminator, say) have as many words together as apart |
| JavaText.LeadingTrimmable | src/UnixToolCcwc.java:193 | the count of units up to U+0020 at the front, and the unit after them is above U+0020 |
| JavaText.TrailingTrimmable | src/UnixToolCcwc.java:193 | the count of units up to U+0020 at the back, and the unit before them is above U+0020 |
| JavaText.Trim | src/UnixToolCcwc.java:193-194 | the trimmed line is empty exactly when every unit is up to U+0020; otherwise it is the contiguous middle of the line and starts and ends above U+0020 |
| JavaText.FirstSpace | src/UnixToolCcwc.java:195 | the index of the first `\s` unit: none before it, and one at it unless it is the end |
| JavaText.SpaceRunEnd | src/UnixToolCcwc.java:195 | the greedy match of `\s+`: every unit up to it is `\s`, and the unit at it is not |
| JavaText.DropTrailingEmpty | src/UnixToolCcwc.java:195 | drops exactly the trailing empty pieces and keeps the rest in order |
| JavaText.Split | src/UnixToolCcwc.java:195 | `split("\\s+")`: no piece holds a `\s` unit; a string with no match is returned whole; otherwise trailing empty pieces are dropped, so the last piece, if any, is non-empty |
| JavaText.RunCountAcrossGap | src/UnixToolCcwc.java:195-196 | a word followed by a `\s` gap adds exactly one run to what follows the gap |
| JavaText.FragmentsOfTrimmed | src/UnixToolCcwc.java:195 | cutting a trimmed line at every maximal `\s` stretch gives non-empty pieces, one per run of non-`\s` units |
| JavaText.SplitCountsRuns | src/UnixToolCcwc.java:194-196 | on a non-empty trimmed line, `split("\\s+")` yields as many pieces as the line has runs of non-`\s` units |
| JavaText.LineEnd | src/UnixToolCcwc.java:176 | the first `\n` or `\r` at or after a position, with no terminator before it |
| JavaText.TerminatorEnd | src/UnixToolCcwc.java:176 | `readLine` consumes exactly one terminator: two units exactly when a `\r` is followed by `\n`, one unit otherwise, none at end of input |
| JavaText.ReadLine | src/UnixToolCcwc.java:176 | `readLine` returns null exactly at end of input; otherwise a terminator-free line followed in the input by one terminator (none only at end of input), a `\r\n` after the line consumed whole, and always consumes at least one unit |
| JavaText.Lines | src/UnixToolCcwc.java:191-198 | the lines successive `readLine` calls return until null: none holds a terminator, and there are no more of them than units left |
| JavaText.LinesFromCount | src/UnixToolCcwc.java:176-178 | from a line start, the number of lines `readLine` returns is the number of terminators plus one for an unterminated tail |
| JavaText.LineCount | src/UnixToolCcwc.java:174-180 | over the whole input, lines returned = terminators (`\r\n` once, lone `\r` included) + 1 if the input ends in something other than a terminator |
| JavaText.TerminatorsSkipText | src/UnixToolCcwc.java:176 | a stretch free of `\n` and `\r` adds nothing to the terminator count |
| Counter.OpenLineStep | src/UnixToolCcwc.java:132-146 | the `isNewLine` flag: a `\n` closes the line, other whitespace leaves it as it was, anything else opens it |
| Counter.ScanStep | src/UnixToolCcwc.java:128-146 | what one unit adds to the lines, words and bytes slots and to the open-line state |
| Counter.BlankInputHasNoLines | src/UnixToolCcwc.java:126-151 | empty input, or input of whitespace other than `\n`, counts 0 lines in the fused scan |
| Counter.LineOpenMeans | src/UnixToolCcwc.java:126-151 | the scan's `isNewLine` flag is false exactly when a non-whitespace unit follows the last `\n`, so the lines slot is the `\n` count plus one for such a unit |
| Counter.TrailingBlankAfterNewline | src/UnixToolCcwc.java:145-151 | `"a\n "` counts 1 line in the fused scan |
| Counter.CarriageReturnRulesDiffer | src/UnixToolCcwc.java:136-178 | `"a\rb"` is 2 lines for `-l` but 1 line for the fused scan |
| Counter.EncodeUnits | src/UnixToolCcwc.java:128-130 | the per-unit encodings of the input together have exactly as many bytes as the bytes slot counts |
| Counter.SupplementaryCharacterCountsTwoBytes | src/UnixToolCcwc.java:128-130 | any surrogate pair (a supplementary character) adds exactly 2 to the bytes slot, wherever it occurs in the input |
| Counter.WordsInLinesCons | src/UnixToolCcwc.java:192-197 | the word count of a list of lines is the first line's trimmed runs plus the rest |
| Counter.LineWords | src/UnixToolCcwc.java:191-198 | the words from a line start: nothing for a line that trims to empty, else the pieces `split` cuts it into, then the words of the following lines |
| Counter.TrimKeepsRuns | src/UnixToolCcwc.java:193-196 | when what `trim` strips is all `\s`, trimming keeps the line's word count |
| Counter.LineThenRest | src/UnixToolCcwc.java:190-199 | under the same condition, the runs from a line start are those of the trimmed first line plus those after its terminator |
| Counter.WordsInLinesAreRuns | src/UnixToolCcwc.java:190-199 | under the same condition, the words of all lines from a position on are the runs of non-`\s` units of the rest of the input |
| Counter.WordTotalIsRunCount | src/UnixToolCcwc.java:186-204 | under the same condition, `-w` equals the number of runs of non-`\s` units in the whole input |
| Counter.RunCountSameBlanks | src/UnixToolCcwc.java:132-196 | where `isWhitespace` and `\s` agree unit by unit, the two word notions count the same |
| Counter.WordCountsAgree | src/UnixToolCcwc.java:119-204 | where the two blank notions agree and the only controls are `\s`, `-w` equals the fused words slot |
| Counter.NewlineCountAppend | src/UnixToolCcwc.java:136-137 | the `\n` count of a concatenation is the sum of the parts' counts |
| Counter.TerminatorsAreNewlines | src/UnixToolCcwc.java:176 | without `\r`, the terminators `readLine` sees are exactly the `\n`s |
| Counter.LineCountsAgree | src/UnixToolCcwc.java:119-184 | without `\r`, and unless the input ends in whitespace other than `\n`, `-l` equals the fused lines slot |
| Counter.GetResultAll | src/UnixToolCcwc.java:119-157 | returns [lines, words, bytes]: lines = `\n` count + 1 if a non-whitespace unit follows the last `\n`, or -1 on failure; words = units that start a run of non-`isWhitespace` units; bytes = sum of per-unit UTF-8 lengths; words and bytes keep their partial values on failure |
| Counter.GetCountByte | src/UnixToolCcwc.java:159-169 | the number of raw bytes read, -1 exactly when reading fails |
| Counter.GetCountLine | src/UnixToolCcwc.java:171-184 | the number of lines `readLine` returns (terminators + unterminated tail), -1 exactly when reading fails |
| Counter.GetCountWord | src/UnixToolCcwc.java:186-204 | the sum over lines of the runs of non-`\s` units of each trimmed line, -1 exactly when reading fails |
| Counter.GetCountCharacter | src/UnixToolCcwc.java:206-217 | the number of units the default decoder yields, -1 exactly when reading fails |
| Ccwc.GetResultFromOption | src/UnixToolCcwc.java:95-117 | a one-slot result: the count of the strategy `-c`, `-l`, `-w` or `-m` selects, over that strategy's view of the input, and -1 for any other flag |
| Ccwc.ProcessCommand | src/UnixToolCcwc.java:84-93 | the fused three-slot result when the option is empty, the one-slot result otherwise |
| Ccwc.ResultShape | src/UnixToolCcwc.java:84-117 | results have 3 slots without an option and 1 with one; an unknown flag gives exactly [-1] |
| Ccwc.SentinelMeansFailure | src/UnixToolCcwc.java:84-217 | a result holds -1 exactly when the flag is unknown or the selected read failed, and no slot is below -1 |
| Ccwc.Digits | src/UnixToolCcwc.java:70 | a non-empty string of decimal digits |
| Ccwc.LongToString | src/UnixToolCcwc.java:70 | a count's decimal form is non-empty and holds no space |
| Ccwc.CountStrings | src/UnixToolCcwc.java:62-71 | one decimal form per count, in order |
| Ccwc.CountsLineStep | src/UnixToolCcwc.java:67-70 | each slot appends a space (except before the first) and its decimal form |
| Ccwc.PrintResults | src/UnixToolCcwc.java:58-82 | any -1 in the result gives the error line on the error stream; otherwise the counts joined by single spaces, then a space and the file name unless it is null, on the output stream |
| Ccwc.LastSpace | src/UnixToolCcwc.java:68 | the last space of a string, with none after it |
| Ccwc.DigitsRoundTrip | src/UnixToolCcwc.java:70 | reading back the digits of a natural number gives the number |
| Ccwc.LongToStringRoundTrip | src/UnixToolCcwc.java:70 | reading back a count's decimal form gives the count, negatives included |
| Ccwc.FieldsAppend | src/UnixToolCcwc.java:67-70 | appending a space and a space-free piece appends one field |
| Ccwc.JoinThenSplit | src/UnixToolCcwc.java:62-71 | space-free pieces joined by single spaces split back into the same pieces |
| Ccwc.CountsLineReadBack | src/UnixToolCcwc.java:62-71 | the counts line splits into one field per count and reads back as the counts |
| Ccwc.OutputLineFields | src/UnixToolCcwc.java:62-80 | a printed line with a space-free file name splits into the counts' fields followed by the name |

## Left out

- `main`, `isPipedInput`, `processPipedInput` and `processInteractiveInput` (src/UnixToolCcwc.java:7-56): argument parsing, console detection and opening files are I/O around the core; the option and the streams are parameters here.
- Decoding: what `InputStreamReader` yields for the UTF-8 and the platform charset (including replacement of malformed input) is not modelled; the decoded units are given as inputs, independently of the raw bytes.
- An `IOException` is modelled as striking after some items were delivered and ending the reading; one thrown by `close()` at the end of a try-with-resources block is not modelled separately.
- Counts are unbounded integers; 64-bit `long` overflow is not modelled, since it needs more than 2^63 units of input.
- Printing: `printResults` returns the line and which stream it goes to; `println`'s line separator is not modelled.
- The result arrays are returned as sequences; the source creates a fresh array in each call and never shares it, so no aliasing is lost.
- `Character.isWhitespace` is modelled over UTF-16 code units with the space separators of current Unicode versions (U+180E is not a space separator); `Character.isWhitespace(int)` on code points above U+FFFF never arises, since `read()` yields single units.
- The regular-expression engine is not modelled; `split("\\s+")` is modelled directly as cutting at maximal `\s` stretches and dropping trailing empty pieces, and only on the trimmed, non-empty lines it is called with.
- `BufferedReader` buffering and the `\r`-then-`\n` skip across buffer refills are not modelled; `\r\n` is consumed in one step, which gives the same lines.
