/** SHA-1 in its simple form: sections 4 to 6.1 of RFC 3174, and HMAC, section 2
    of RFC 2104. */
module Sha1Spec {
  import opened CryptoWords

  /** Five words: a chaining value, or the registers. */
  datatype Five = Five(a: Word, b: Word, c: Word, d: Word, e: Word)

  const START := Five(0x67452301, 0xEFCDAB89, 0x98BADCFE, 0x10325476, 0xC3D2E1F0)

  type Block = b: seq<Byte> | |b| == 64 witness seq(64, _ => 0)

  function Rol1(w: Word): Word { (w << 1) | (w >> 31) }

  function Rol5(w: Word): Word { (w << 5) | (w >> 27) }

  function Rol30(w: Word): Word { (w << 30) | (w >> 2) }

  /** Word `t` of the message schedule of a block. */
  function W(b: Block, t: nat): Word {
    if t < 16 then GetWord(b[4 * t], b[4 * t + 1], b[4 * t + 2], b[4 * t + 3])
    else Rol1(W(b, t - 3) ^ W(b, t - 8) ^ W(b, t - 14) ^ W(b, t - 16))
  }

  function Choose(b: Word, c: Word, d: Word): Word { (b & c) | (!b & d) }

  function Parity(b: Word, c: Word, d: Word): Word { b ^ c ^ d }

  function Majority(b: Word, c: Word, d: Word): Word { (b & c) | (b & d) | (c & d) }

  /** The logical function of round `t`. */
  function F(t: nat, b: Word, c: Word, d: Word): Word {
    if t < 20 then Choose(b, c, d)
    else if t < 40 then Parity(b, c, d)
    else if t < 60 then Majority(b, c, d)
    else Parity(b, c, d)
  }

  function K(t: nat): Word {
    if t < 20 then 0x5A827999 else if t < 40 then 0x6ED9EBA1 else if t < 60 then 0x8F1BBCDC else 0xCA62C1D6
  }

  /** One round on the registers. */
  function Round(t: nat, w: Word, r: Five): Five {
    Five(Sum(Rol5(r.a), F(t, r.b, r.c, r.d), r.e, w, K(t)), r.a, Rol30(r.b), r.c, r.d)
  }

  function Sum(v: Word, f: Word, e: Word, w: Word, k: Word): Word { v + f + e + w + k }

  /** The registers after `t` rounds. */
  function Rounds(h: Five, b: Block, t: nat): Five {
    if t == 0 then h else Round(t - 1, W(b, t - 1), Rounds(h, b, t - 1))
  }

  function AddFive(h: Five, r: Five): Five { Five(h.a + r.a, h.b + r.b, h.c + r.c, h.d + r.d, h.e + r.e) }

  function Compress(h: Five, b: Block): Five { AddFive(h, Rounds(h, b, 80)) }

  /** The chaining value after whole blocks. */
  function Chain(s: seq<Byte>): Five
    requires |s| % 64 == 0
  {
    if s == [] then START else Compress(Chain(s[..|s| - 64]), s[|s| - 64..])
  }

  const WORD: nat := 0x1_0000_0000

  /** A number below 2^32 as four bytes. */
  function NumberBytes(n: nat): (r: seq<Byte>)
    requires n < WORD
    ensures |r| == 4
  {
    [(n / 0x100_0000) as Byte, (n / 0x1_0000 % 0x100) as Byte, (n / 0x100 % 0x100) as Byte, (n % 0x100) as Byte]
  }

  /** The length of a message in bits, as two words. */
  function LengthBytes(n: nat): (r: seq<Byte>)
    ensures |r| == 8
  {
    NumberBytes(8 * n / WORD % WORD) + NumberBytes(8 * n % WORD)
  }

  function Zeros(n: nat): (r: seq<Byte>)
    ensures |r| == n
  {
    seq(n, _ => 0)
  }

  /** How many zero bytes the padding of `n` bytes has. */
  function ZerosAfter(n: nat): nat { if n % 64 <= 55 then 55 - n % 64 else 119 - n % 64 }

  lemma {:induction false} PaddedLength(n: nat)
    ensures (n + 1 + ZerosAfter(n) + 8) % 64 == 0
  {
    var q, r := n / 64, n % 64;
    assert n == 64 * q + r;
    assert n + 1 + ZerosAfter(n) + 8 == 64 * (if r <= 55 then q + 1 else q + 2);
  }

  function Padded(s: seq<Byte>): (r: seq<Byte>)
    ensures |r| % 64 == 0
  {
    PaddedLength(|s|);
    s + [0x80] + Zeros(ZerosAfter(|s|)) + LengthBytes(|s|)
  }

  function DigestOf(h: Five): (r: seq<Byte>)
    ensures |r| == 20
  {
    PutWord(h.a) + PutWord(h.b) + PutWord(h.c) + PutWord(h.d) + PutWord(h.e)
  }

  function Sha1(s: seq<Byte>): (r: seq<Byte>)
    ensures |r| == 20
  {
    DigestOf(Chain(Padded(s)))
  }

  // ------------------------------------------------------------------- HMAC

  function XorAll(s: seq<Byte>, b: Byte): (r: seq<Byte>)
    ensures |r| == |s|
  {
    seq(|s|, i requires 0 <= i < |s| => s[i] ^ b)
  }

  /** The key as one block: hashed when it is too long, and filled up with zeros. */
  function KeyBlock(key: seq<Byte>): Block {
    var k := if |key| > 64 then Sha1(key) else key;
    k + Zeros(64 - |k|)
  }

  function Hmac(key: seq<Byte>, text: seq<Byte>): seq<Byte> {
    Sha1(XorAll(KeyBlock(key), 0x5C) + Sha1(XorAll(KeyBlock(key), 0x36) + text))
  }
}
