/** Code units, bytes, and the character classes the counting engine tests them against. */
module Units {

  /** A UTF-16 code unit, as `Reader.read()` returns it. */
  type Unit = c: int | 0 <= c <= 0xFFFF

  /** An unsigned byte, as `InputStream.read()` returns it. */
  type Byte = b: int | 0 <= b <= 0xFF

  const LF: Unit := 0x0A
  const CR: Unit := 0x0D
  const SPACE: Unit := 0x20
  /** The byte the UTF-8 encoder substitutes for a unit it cannot encode ('?'). */
  const REPLACEMENT: Byte := 0x3F

  /** A high or low half of a surrogate pair; on its own it is malformed UTF-16. */
  predicate IsSurrogate(c: Unit) {
    0xD800 <= c <= 0xDFFF
  }

  /** The space separators of the Unicode character database (general category Zs). */
  predicate IsSpaceSeparator(c: Unit) {
    c == 0x20 || c == 0xA0 || c == 0x1680 || 0x2000 <= c <= 0x200A
    || c == 0x202F || c == 0x205F || c == 0x3000
  }

  /**
   * `Character.isWhitespace`: a space separator other than the three no-break
   * spaces, the line or paragraph separator, or one of U+0009..U+000D and
   * U+001C..U+001F.
   */
  predicate IsWhitespace(c: Unit): (b: bool)
    ensures IsRegexSpace(c) ==> b
    ensures c < 0x80 ==> (b <==> IsRegexSpace(c) || 0x1C <= c <= 0x1F)
    ensures b ==> !IsSurrogate(c)
  {
    (IsSpaceSeparator(c) && c != 0xA0 && c != 0x2007 && c != 0x202F)
    || c == 0x2028 || c == 0x2029
    || 0x09 <= c <= 0x0D || 0x1C <= c <= 0x1F
  }

  /** The regular-expression class `\s`: `[ \t\n\x0B\f\r]`. */
  predicate IsRegexSpace(c: Unit): (b: bool)
    ensures b <==> c in {SPACE, 0x09, LF, 0x0B, 0x0C, CR}
  {
    c == SPACE || 0x09 <= c <= 0x0D
  }

  /** What `String.trim` strips from either end: every unit up to U+0020. */
  predicate IsTrimmable(c: Unit): (b: bool)
    ensures IsRegexSpace(c) ==> b
    ensures b ==> c < 0x80
  {
    c <= SPACE
  }

  /** The units that end a line for `BufferedReader.readLine`. */
  predicate IsLineTerminator(c: Unit) {
    c == LF || c == CR
  }

  /** Number of bytes UTF-8 gives one unit taken on its own. */
  function Utf8Length(c: Unit): (n: nat)
    ensures 1 <= n <= 3
    ensures !IsSurrogate(c) ==> (n == 1 <==> c < 0x80) && (n <= 2 <==> c < 0x800)
    ensures IsSurrogate(c) ==> n == 1
  {
    if c < 0x80 then 1
    else if c < 0x800 then 2
    else if IsSurrogate(c) then 1
    else 3
  }

  predicate IsContinuation(b: Byte) {
    0x80 <= b <= 0xBF
  }

  /**
   * `Character.toString((char) c).getBytes(UTF_8)`: the UTF-8 encoding of a
   * one-unit string. A lone surrogate cannot be encoded and becomes '?'.
   */
  function EncodeUnit(c: Unit): (bs: seq<Byte>)
    ensures |bs| == Utf8Length(c)
    ensures |bs| == 1 ==> bs[0] < 0x80
    ensures |bs| == 2 ==> 0xC2 <= bs[0] <= 0xDF && IsContinuation(bs[1])
    ensures |bs| == 3 ==> 0xE0 <= bs[0] <= 0xEF && IsContinuation(bs[1]) && IsContinuation(bs[2])
    ensures IsSurrogate(c) ==> bs == [REPLACEMENT]
  {
    if c < 0x80 then [c]
    else if c < 0x800 then [0xC0 + c / 0x40, 0x80 + c % 0x40]
    else if IsSurrogate(c) then [REPLACEMENT]
    else [0xE0 + c / 0x1000, 0x80 + (c / 0x40) % 0x40, 0x80 + c % 0x40]
  }

  /** Reads back the code point of a one-, two- or three-byte UTF-8 sequence. */
  function DecodeUnit(bs: seq<Byte>): int
    requires 1 <= |bs| <= 3
  {
    if |bs| == 1 then bs[0]
    else if |bs| == 2 then (bs[0] as int - 0xC0) * 0x40 + (bs[1] as int - 0x80)
    else (bs[0] as int - 0xE0) * 0x1000 + (bs[1] as int - 0x80) * 0x40 + (bs[2] as int - 0x80)
  }

  /** The per-unit encoding loses information exactly at the surrogates. */
  lemma EncodeUnitRoundTrip(c: Unit)
    ensures !IsSurrogate(c) ==> DecodeUnit(EncodeUnit(c)) == c
    ensures IsSurrogate(c) ==> DecodeUnit(EncodeUnit(c)) == '?' as int
  {
    if 0x800 <= c && !IsSurrogate(c) {
      var hi, mid, lo := c / 0x1000, (c / 0x40) % 0x40, c % 0x40;
      assert c / 0x40 == hi * 0x40 + mid;
      assert c == (c / 0x40) * 0x40 + lo;
    }
  }
}
