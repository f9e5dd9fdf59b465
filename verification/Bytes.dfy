/**
 A char of the source, taken as unsigned, the ASCII codes that the source spells as literals, and how many
 values words of 32 and 64 bits have.
 */
module Bytes {
  type Byte = n: nat | n < 256

  const TWO32 := 0x1_0000_0000
  const TWO64 := 0x1_0000_0000_0000_0000

  const TAB: Byte := 9
  const LF: Byte := 10
  const CR: Byte := 13
  const SPACE: Byte := 32
  const QUOTE: Byte := 34
  const APOSTROPHE: Byte := 39
  const MINUS: Byte := 45
  const ZERO: Byte := 48
  const NINE: Byte := 57
  const BACKSLASH: Byte := 92

  predicate IsAscii(text: string) {
    forall i | 0 <= i < |text| :: text[i] < 128 as char
  }

  /** The bytes of a text. */
  function Ascii(text: string): (s: seq<Byte>)
    requires IsAscii(text)
  {
    seq(|text|, i requires 0 <= i < |text| => text[i] as int)
  }

  lemma Associates(a: seq<Byte>, b: seq<Byte>, c: seq<Byte>)
    ensures a + b + c == a + (b + c)
  {
  }
}
