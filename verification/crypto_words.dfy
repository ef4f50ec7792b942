/** Bytes and 32-bit words, most significant byte first. */
module CryptoWords {

  type Byte = bv8

  type Word = bv32

  function GetWord(a: Byte, b: Byte, c: Byte, d: Byte): Word {
    ((a as Word) << 24) | ((b as Word) << 16) | ((c as Word) << 8) | (d as Word)
  }

  // The bytes of a word, from the highest to the lowest.

  function Byte0(w: Word): Byte { ((w >> 24) & 0xFF) as Byte }

  function Byte1(w: Word): Byte { ((w >> 16) & 0xFF) as Byte }

  function Byte2(w: Word): Byte { ((w >> 8) & 0xFF) as Byte }

  function Byte3(w: Word): Byte { (w & 0xFF) as Byte }

  function PutWord(w: Word): (r: seq<Byte>)
    ensures |r| == 4
  {
    [Byte0(w), Byte1(w), Byte2(w), Byte3(w)]
  }

  lemma {:induction false} GetPut(w: Word)
    ensures GetWord(Byte0(w), Byte1(w), Byte2(w), Byte3(w)) == w
  {
  }

  lemma {:induction false} PutGet(a: Byte, b: Byte, c: Byte, d: Byte)
    ensures var w := GetWord(a, b, c, d); Byte0(w) == a && Byte1(w) == b && Byte2(w) == c && Byte3(w) == d
  {
  }
}
