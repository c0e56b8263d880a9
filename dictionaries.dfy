/**
 The two lookup tables the decoder turns bytes into characters with:
 ASCII_DICTIONARY (decimal code to character, only the characters an
 identifier needs) and HEX_DICTIONARY (byte to two uppercase hex digits).
 */
module Dictionaries {
  import opened CInt
  import opened Wrappers

  const DIGITS: string := "0123456789"
  const LETTERS: string := "ABCDEFGHIJKLMNOPQRSTUVWXYZ"
  const HEX_DIGITS: string := "0123456789ABCDEF"

  /**
   The 91-entry character table: entry 0 is '0', entries 45 and 46 are '-' and
   '.', entries 48-57 the digits, entries 65-90 the capital letters, and every
   other entry is the placeholder '_'. It is written here as the concatenation
   of its runs, entry for entry the same as the literal list in the source.
   */
  const ASCII_DICTIONARY: string :=
    "0" + Placeholders(44) + "-._" + DIGITS + Placeholders(7) + LETTERS

  /** A run of n placeholder entries. */
  function Placeholders(n: nat): (s: string)
    ensures |s| == n
    ensures forall i :: 0 <= i < n ==> s[i] == '_'
  {
    if n == 0 then "" else "_" + Placeholders(n - 1)
  }

  /** The characters an identifier field is made of. */
  predicate IsIdChar(c: char) {
    c == '-' || c == '.' || '0' <= c <= '9' || 'A' <= c <= 'Z'
  }

  lemma DigitAt(i: nat)
    requires i < 10
    ensures DIGITS[i] == (48 + i) as char
  {
  }

  lemma LetterAt(i: nat)
    requires i < 26
    ensures LETTERS[i] == (65 + i) as char
  {
  }

  /**
   The table maps each identifier character's code to that character, code 0
   to '0', and every other code it has to '_'.
   */
  lemma AsciiDictionaryEntry(b: nat)
    requires b < |ASCII_DICTIONARY|
    ensures |ASCII_DICTIONARY| == 91
    ensures ASCII_DICTIONARY[b] ==
      if b == 0 then '0' else if IsIdChar(b as char) then b as char else '_'
  {
    if 48 <= b < 58 {
      DigitAt(b - 48);
    } else if 65 <= b {
      LetterAt(b - 65);
    }
  }

  /**
   The lookup `ASCII_DICTIONARY[b]` exactly as the source performs it: the
   table stops at index 90, so any larger byte reads past its end, which C
   leaves undefined (None here).
   */
  function AsciiLookupAsWritten(b: uint8): (r: Option<char>)
    ensures r.Some? <==> b <= 90
  {
    if b < |ASCII_DICTIONARY| then Some(ASCII_DICTIONARY[b]) else None
  }

  /** A lower-case serial character such as 'a' (97) is one of those bytes. */
  lemma AsciiLookupPastTable()
    ensures AsciiLookupAsWritten('a' as int) == None
    ensures forall b: uint8 :: AsciiLookupAsWritten(b).None? <==> 91 <= b
  {
  }

  /**
   The lookup with the table completed to all 256 codes by its own
   placeholder: the table's entry where it has one, '_' past its end.
   */
  function AsciiChar(b: uint8): (c: char)
    ensures b <= 90 ==> AsciiLookupAsWritten(b) == Some(c)
    ensures c == if b == 0 then '0' else if IsIdChar(b as char) then b as char else '_'
  {
    if b < |ASCII_DICTIONARY| then AsciiDictionaryEntry(b); ASCII_DICTIONARY[b] else '_'
  }

  /** A byte string decoded character by character through the table. */
  function AsciiString(bytes: seq<uint8>): (s: string)
  {
    seq(|bytes|, i requires 0 <= i < |bytes| => AsciiChar(bytes[i]))
  }

  /** The codes of an identifier string, one byte per character. */
  function IdCodes(s: string): (bytes: seq<uint8>)
    requires forall i :: 0 <= i < |s| ==> IsIdChar(s[i])
    ensures |bytes| == |s|
  {
    seq(|s|, i requires 0 <= i < |s| && IsIdChar(s[i]) => s[i] as int)
  }

  /** Decoding the codes of an identifier string gives the string back. */
  lemma AsciiStringRoundTrip(s: string)
    requires forall i :: 0 <= i < |s| ==> IsIdChar(s[i])
    ensures AsciiString(IdCodes(s)) == s
  {
    var r := AsciiString(IdCodes(s));
    forall i | 0 <= i < |s| ensures r[i] == s[i] {
      assert IdCodes(s)[i] == s[i] as int;
    }
  }

  /** A value 0-15 as an uppercase hex digit. */
  function HexDigit(d: nat): (c: char)
    requires d < 16
    ensures d < 10 ==> c == (48 + d) as char
    ensures 10 <= d ==> c == (55 + d) as char
  {
    if d < 10 then DigitAt(d); HEX_DIGITS[d] else LetterAt(d - 10); HEX_DIGITS[d]
  }

  /** The value of an uppercase hex digit; -1 for any other character. */
  function HexDigitValue(c: char): (v: int)
    ensures -1 <= v < 16
  {
    if '0' <= c <= '9' then c as int - 48
    else if 'A' <= c <= 'F' then c as int - 55
    else -1
  }

  /** The two-digit uppercase hexadecimal spelling of a byte. */
  function HexEntry(v: uint8): (e: string)
    ensures |e| == 2
  {
    [HexDigit(v / 16), HexDigit(v % 16)]
  }

  /** Each entry's two digits spell the byte back. */
  lemma HexEntryValue(v: uint8)
    ensures HexDigitValue(HexEntry(v)[0]) == v / 16 && HexDigitValue(HexEntry(v)[1]) == v % 16
    ensures 16 * HexDigitValue(HexEntry(v)[0]) + HexDigitValue(HexEntry(v)[1]) == v
  {
    assert HexDigitValue(HexEntry(v)[0]) == v / 16;
    assert HexDigitValue(HexEntry(v)[1]) == v % 16;
  }

  /**
   HEX_DICTIONARY: the 256-entry hex table, entry v being the two-digit
   uppercase hexadecimal spelling of v, written by its rule rather than as
   256 literals.
   */
  function HexDictionary(): (t: seq<string>)
    ensures |t| == 256
  {
    seq(256, v requires 0 <= v < 256 => HexEntry(v))
  }

  /** Every table entry is two hex digits that spell its own index. */
  lemma HexDictionaryEntry(v: uint8)
    ensures |HexDictionary()[v]| == 2
    ensures HexDigitValue(HexDictionary()[v][0]) == v / 16 && HexDigitValue(HexDictionary()[v][1]) == v % 16
    ensures 16 * HexDigitValue(HexDictionary()[v][0]) + HexDigitValue(HexDictionary()[v][1]) == v
  {
    assert HexDictionary()[v] == HexEntry(v);
    HexEntryValue(v);
  }

  /** A byte string spelled out through the hex table, two characters per byte. */
  function HexString(bytes: seq<uint8>): (s: string)
    ensures |s| == 2 * |bytes|
  {
    if bytes == [] then []
    else HexDictionaryEntry(bytes[0]); HexDictionary()[bytes[0]] + HexString(bytes[1..])
  }

  /** Appending a byte appends its two hex digits. */
  lemma {:induction false} HexStringSnoc(bytes: seq<uint8>, b: uint8)
    ensures HexString(bytes + [b]) == HexString(bytes) + HexDictionary()[b]
  {
    if bytes == [] {
      assert [b][1..] == [];
    } else {
      assert (bytes + [b])[1..] == bytes[1..] + [b];
      HexStringSnoc(bytes[1..], b);
    }
  }

  /** Characters 2i and 2i+1 of a hex string are the table entry of byte i. */
  lemma {:induction false} HexStringAt(bytes: seq<uint8>, i: nat)
    requires i < |bytes|
    ensures HexString(bytes)[2 * i..2 * i + 2] == HexDictionary()[bytes[i]]
  {
    HexDictionaryEntry(bytes[0]);
    if i > 0 {
      HexStringAt(bytes[1..], i - 1);
      assert HexString(bytes)[2 * i..2 * i + 2] == HexString(bytes[1..])[2 * (i - 1)..2 * (i - 1) + 2];
    }
  }

  /** Reads a string of hex-digit pairs back into bytes. */
  function HexBytes(s: string): (bytes: seq<int>)
    ensures |bytes| == |s| / 2
  {
    if |s| < 2 then [] else [16 * HexDigitValue(s[0]) + HexDigitValue(s[1])] + HexBytes(s[2..])
  }

  /** Reading a hex string back gives the bytes it was made from. */
  lemma {:induction false} HexRoundTrip(bytes: seq<uint8>)
    ensures HexBytes(HexString(bytes)) == bytes
  {
    if bytes != [] {
      HexDictionaryEntry(bytes[0]);
      var s := HexString(bytes);
      assert s[2..] == HexString(bytes[1..]);
      HexRoundTrip(bytes[1..]);
    }
  }
}
