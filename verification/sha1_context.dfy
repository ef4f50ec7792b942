/** The context of SHA-1: it takes a message in pieces of any size, counts the bits
    in two words, and pads in the end.  HMAC uses two such contexts. */
module Sha1Context {
  import opened CryptoWords
  import opened Sha1Spec
  import opened Sha1Code

  // ----------------------------------------------------- counting the bits

  /** The two count words that `n` bytes should have. */
  function LowCount(n: nat): nat { 8 * n % WORD }

  function HighCount(n: nat): nat { 8 * n / WORD % WORD }

  /** The high word after an update of `len` bytes, as the program computes it: it
      takes the low word's new value for smaller than `8 * len` when there was a
      carry, and also when `8 * len` has more than 32 bits. */
  function NextHigh(low: nat, high: nat, len: nat): (r: nat)
    ensures r < WORD
  {
    var low' := (low + 8 * len) % WORD;
    (high + (if low' < 8 * len then 1 else 0) + len / 0x2000_0000) % WORD
  }

  /** Does adding `len` bytes to a low word of `low` carry? */
  predicate Carries(low: nat, len: nat) { low + 8 * len % WORD >= WORD }

  lemma {:induction false} LowNext(n: nat, len: nat)
    ensures LowCount(n + len) == (LowCount(n) + 8 * len) % WORD
  {
    var p, q := 8 * n / WORD, 8 * n % WORD;
    assert 8 * n == p * WORD + q;
    assert 8 * (n + len) == p * WORD + (q + 8 * len);
    ModShift(p, q + 8 * len);
  }

  lemma {:induction false} ModShift(p: nat, x: nat)
    ensures (p * WORD + x) % WORD == x % WORD && (p * WORD + x) / WORD == p + x / WORD
  {
  }

  /** The quotient of a sum is the sum of the quotients, and the carry. */
  lemma {:induction false} QuotientNext(n: nat, len: nat)
    ensures 8 * (n + len) / WORD == 8 * n / WORD + len / 0x2000_0000 + if Carries(LowCount(n), len) then 1 else 0
  {
    var p, q := 8 * n / WORD, 8 * n % WORD;
    var r, s := 8 * len / WORD, 8 * len % WORD;
    assert 8 * len / WORD == len / 0x2000_0000;
    assert 8 * (n + len) == (p + r) * WORD + (q + s);
    ModShift(p + r, q + s);
  }

  lemma {:induction false} AddMod(x: nat, y: nat)
    ensures (x % WORD + y) % WORD == (x + y) % WORD
  {
    var p := x / WORD;
    assert x + y == p * WORD + (x % WORD + y);
    ModShift(p, x % WORD + y);
  }

  lemma {:induction false} OneMore(x: nat)
    ensures (x + 1) % WORD != x % WORD
  {
  }

  /** The high word is right after an update exactly when the update is shorter than
      2^29 bytes, or there was a carry. */
  lemma {:induction false} HighExactly(n: nat, len: nat)
    ensures NextHigh(LowCount(n), HighCount(n), len) == HighCount(n + len)
            <==> len < 0x2000_0000 || Carries(LowCount(n), len)
  {
    var low, p := LowCount(n), 8 * n / WORD;
    var carry := if Carries(low, len) then 1 else 0;
    var seen := if (low + 8 * len) % WORD < 8 * len then 1 else 0;
    QuotientNext(n, len);
    AddMod(p, seen + len / 0x2000_0000);
    assert HighCount(n + len) == (p + len / 0x2000_0000 + carry) % WORD;
    assert NextHigh(low, HighCount(n), len) == (p + len / 0x2000_0000 + seen) % WORD;
    OneMore(p + len / 0x2000_0000);
    SeenIs(low, len);
  }

  lemma {:induction false} SeenIs(low: nat, len: nat)
    requires low < WORD
    ensures (low + 8 * len) % WORD < 8 * len <==> len >= 0x2000_0000 || Carries(low, len)
  {
    if len < 0x2000_0000 {
      if low + 8 * len >= WORD {
        ModShift(1, low + 8 * len - WORD);
      }
    }
  }

  lemma {:induction false} Position(n: nat)
    ensures LowCount(n) / 8 % 64 == n % 64
  {
    var p := 8 * n / WORD;
    assert LowCount(n) == 8 * (n - p * 0x2000_0000);
    var m := n - p * 0x2000_0000;
    assert n == m + 64 * (p * 0x80_0000);
    assert n % 64 == m % 64;
  }

  // ---------------------------------------------------------- whole blocks

  lemma {:induction false} ChainEmpty(s: seq<Byte>)
    requires s == []
    ensures Whole(s) == [] && Rest(s) == [] && Chain(Whole(s)) == START
  {
    hide Compress;
  }

  lemma {:induction false} ChainNext(s: seq<Byte>, b: Block)
    requires |s| % 64 == 0
    ensures |s + b| % 64 == 0 && Chain(s + b) == Compress(Chain(s), b)
  {
    hide Compress;
    assert (s + b)[..|s + b| - 64] == s && (s + b)[|s + b| - 64..] == b;
  }

  /** The whole blocks of a message, and the rest. */
  function Whole(s: seq<Byte>): (r: seq<Byte>)
    ensures |r| % 64 == 0
  {
    s[..|s| - |s| % 64]
  }

  function Rest(s: seq<Byte>): (r: seq<Byte>)
    ensures |r| < 64
  {
    s[|s| - |s| % 64..]
  }

  lemma {:induction false} Split(s: seq<Byte>, whole: seq<Byte>, rest: seq<Byte>)
    requires s == whole + rest && |whole| % 64 == 0 && |rest| < 64
    ensures Whole(s) == whole && Rest(s) == rest
  {
    RestLength(|whole|, |rest|);
    assert s[..|whole|] == whole && s[|whole|..] == rest;
  }

  lemma {:induction false} RestLength(w: nat, r: nat)
    requires w % 64 == 0 && r < 64
    ensures (w + r) % 64 == r
  {
  }

  /** A piece that does not complete a block. */
  lemma {:induction false} Append(s: seq<Byte>, t: seq<Byte>)
    requires |s| % 64 + |t| < 64
    ensures Whole(s + t) == Whole(s) && Rest(s + t) == Rest(s) + t && |s + t| % 64 == |s| % 64 + |t|
  {
    assert s + t == Whole(s) + (Rest(s) + t);
    Split(s + t, Whole(s), Rest(s) + t);
  }

  /** The digest of a message whose length field is `length`. */
  function DigestWith(s: seq<Byte>, length: seq<Byte>): (r: seq<Byte>)
    requires |length| == 8
    ensures |r| == 20
  {
    PaddedLength(|s|);
    DigestOf(Chain(s + [0x80] + Zeros(ZerosAfter(|s|)) + length))
  }

  class Context {
    var state: Five
    var count0: nat
    var count1: nat
    const buffer: array<Byte>
    /** Everything that was put in. */
    ghost var data: seq<Byte>

    /** The chaining value and the buffer hold the message so far. */
    ghost predicate Valid()
      reads this, buffer
    {
      && buffer.Length == 64 && count0 == LowCount(|data|) && count1 < WORD
      && state == Chain(Whole(data)) && buffer[..|data| % 64] == Rest(data)
    }

    /** The bits are counted right. */
    ghost predicate Counted()
      reads this
    {
      count1 == HighCount(|data|)
    }

    constructor ()
      ensures Valid() && Counted() && data == [] && fresh(buffer)
    {
      hide Chain, Compress, LowCount, HighCount, Whole, Rest;
      state := START;
      count0, count1 := 0, 0;
      buffer := new Byte[64](_ => 0);
      data := [];
      new;
      ChainEmpty(data);
      EmptyCounts();
      assert buffer[..0] == [];
    }

    method CopyIn(at: nat, src: seq<Byte>)
      requires at + |src| <= buffer.Length
      modifies buffer
      ensures buffer[..at + |src|] == old(buffer[..at]) + src
    {
      for k := 0 to |src|
        invariant buffer[..at] == old(buffer[..at])
        invariant buffer[at..at + k] == src[..k]
      {
        buffer[at + k] := src[k];
      }
      assert buffer[..at + |src|] == buffer[..at] + buffer[at..at + |src|];
    }

    /** Puts in a piece of any length.  What is in the context is right then; the bits
        are counted right exactly when the piece is short enough or there is a carry. */
    method Update(input: seq<Byte>)
      requires Valid()
      modifies this`state, this`count0, this`count1, this`data, buffer
      ensures Valid() && data == old(data) + input
      ensures count1 == NextHigh(old(count0), old(count1), |input|)
      ensures old(Counted()) ==> (Counted() <==> |input| < 0x2000_0000 || Carries(old(count0), |input|))
    {
      hide Chain, Compress, NextHigh, HighCount, Carries;
      ghost var n := |data|;
      Position(n);
      LowNext(n, |input|);
      HighExactly(n, |input|);
      var j := count0 / 8 % 64;
      count0, count1 := (count0 + 8 * |input|) % WORD, NextHigh(count0, count1, |input|);
      if j + |input| > 63 {
        FillUp(j, input);
      } else {
        Append(data, input);
        CopyIn(j, input);
      }
      data := data + input;
    }

    /** Completes the block in the buffer, takes whole blocks from the input, and keeps the rest. */
    method FillUp(j: nat, input: seq<Byte>)
      requires buffer.Length == 64 && j == |data| % 64 && j + |input| > 63
      requires state == Chain(Whole(data)) && buffer[..j] == Rest(data)
      modifies this`state, buffer
      ensures state == Chain(Whole(data + input)) && buffer[..|data + input| % 64] == Rest(data + input)
    {
      hide Chain, Compress;
      var i := 64 - j;
      ghost var whole, rest := Whole(data), Rest(data);
      CopyIn(j, input[..i]);
      assert buffer[..64] == buffer[..];
      state := Transform(state, buffer[..]);
      ChainNext(whole, rest + input[..i]);
      ghost var done := whole + (rest + input[..i]);
      while i + 63 < |input|
        invariant 64 - j <= i <= |input|
        invariant |done| % 64 == 0 && done == whole + (rest + input[..i]) && state == Chain(done)
      {
        state := Transform(state, input[i..i + 64]);
        ChainNext(done, input[i..i + 64]);
        assert input[..i + 64] == input[..i] + input[i..i + 64];
        done := done + input[i..i + 64];
        i := i + 64;
      }
      assert data + input == done + input[i..];
      Split(data + input, done, input[i..]);
      CopyIn(0, input[i..]);
    }

    /** Pads, and returns the digest. */
    method Final() returns (digest: seq<Byte>)
      requires Valid()
      modifies this`state, this`count0, this`count1, this`data, buffer
      ensures digest == DigestWith(old(data), NumberBytes(old(count1)) + NumberBytes(old(count0)))
      ensures old(Counted()) ==> digest == Sha1(old(data))
    {
      hide Chain, DigestOf;
      ghost var s := data;
      var finalcount := NumberBytes(count1) + NumberBytes(count0);
      Update([0x80]);
      PadZeros(s);
      Update(finalcount);
      PaddedLength(|s|);
      assert data == s + [0x80] + Zeros(ZerosAfter(|s|)) + finalcount;
      assert Whole(data) == data;
      digest := DigestOf(state);
    }

    /** Puts in zero bytes until eight bytes of the block are left. */
    method PadZeros(ghost s: seq<Byte>)
      requires Valid() && data == s + [0x80]
      modifies this`state, this`count0, this`count1, this`data, buffer
      ensures Valid() && data == s + [0x80] + Zeros(ZerosAfter(|s|))
    {
      hide Chain, NextHigh;
      ghost var k := 0;
      Position(|data|);
      assert data == s + [0x80] + Zeros(0);
      while count0 / 8 % 64 != 56
        invariant Valid() && k <= ZerosAfter(|s|) && data == s + [0x80] + Zeros(k)
        invariant count0 / 8 % 64 == |data| % 64
        decreases ZerosAfter(|s|) - k
      {
        NotYet(|s|, k);
        Update([0]);
        Position(|data|);
        assert Zeros(k) + [0] == Zeros(k + 1);
        k := k + 1;
      }
      ZerosDone(|s|, k);
    }
  }

  /** The block has eight bytes left exactly when all zeros are there. */
  lemma {:induction false} ZerosDone(n: nat, k: nat)
    requires k <= ZerosAfter(n)
    ensures (n + 1 + k) % 64 == 56 <==> k == ZerosAfter(n)
  {
    var q, r := n / 64, n % 64;
    assert n == 64 * q + r;
    if r <= 55 {
      assert n + 1 + k == 64 * q + (r + 1 + k);
    } else if r + 1 + k < 64 {
      assert n + 1 + k == 64 * q + (r + 1 + k);
    } else {
      assert n + 1 + k == 64 * (q + 1) + (r + 1 + k - 64);
    }
  }

  lemma {:induction false} NotYet(n: nat, k: nat)
    requires k <= ZerosAfter(n) && (n + 1 + k) % 64 != 56
    ensures k < ZerosAfter(n)
  {
    ZerosDone(n, k);
  }

  /** Any message put in in pieces, each shorter than 2^29 bytes, has the digest of the whole. */
  method HashPieces(pieces: seq<seq<Byte>>) returns (digest: seq<Byte>)
    requires forall p <- pieces :: |p| < 0x2000_0000
    ensures digest == Sha1(Concat(pieces))
  {
    hide Sha1;
    var context := new Context();
    for i := 0 to |pieces|
      invariant fresh(context) && fresh(context.buffer)
      invariant context.Valid() && context.Counted() && context.data == Concat(pieces[..i])
    {
      context.Update(pieces[i]);
      assert pieces[..i + 1][..i] == pieces[..i];
    }
    assert pieces[..|pieces|] == pieces;
    digest := context.Final();
  }

  function Concat(pieces: seq<seq<Byte>>): seq<Byte> {
    if pieces == [] then [] else Concat(pieces[..|pieces| - 1]) + pieces[|pieces| - 1]
  }

  /** What lsha1 hashes: the text with padding, whose length field is right exactly for
      texts shorter than 2^29 bytes. */
  method Digest(text: seq<Byte>) returns (digest: seq<Byte>)
    ensures digest == DigestWith(text, CodeLength(|text|))
    ensures |text| < 0x2000_0000 ==> digest == Sha1(text)
  {
    hide Chain, Sha1, DigestOf, NumberBytes, Carries, HighCount;
    EmptyCounts();
    var context := new Context();
    context.Update(text);
    assert [] + text == text;
    digest := context.Final();
  }

  lemma {:induction false} EmptyCounts()
    ensures LowCount(0) == 0 && HighCount(0) == 0
    ensures forall n: nat :: LowCount(0 + n) == (LowCount(0) + 8 * n) % WORD
  {
  }

  /** The length field of a text that is put in at once. */
  function CodeLength(n: nat): seq<Byte> { NumberBytes(NextHigh(0, 0, n)) + NumberBytes(LowCount(n)) }

  /** Only texts shorter than 2^29 bytes get the length that RFC 3174 asks for. */
  lemma {:induction false} LengthExactly(n: nat)
    ensures NextHigh(0, 0, n) == HighCount(n) <==> n < 0x2000_0000
    ensures n < 0x2000_0000 ==> CodeLength(n) == LengthBytes(n)
  {
    hide NumberBytes, Carries;
    HighExactly(0, n);
    EmptyCounts();
    NoCarry(n);
  }

  lemma {:induction false} NoCarry(n: nat)
    ensures !Carries(0, n)
  {
  }

  // ------------------------------------------------------------------- HMAC

  /** The key as one block, as the program makes it. */
  function CodeBlock(key: seq<Byte>): Block {
    var k := if |key| > 64 then DigestWith(key, CodeLength(|key|)) else key;
    k + Zeros(64 - |k|)
  }

  /** The length field of the inner message: a block, and then the text in one piece. */
  function InnerLength(n: nat): seq<Byte> { NumberBytes(NextHigh(512, 0, n)) + NumberBytes(LowCount(64 + n)) }

  /** What the program computes, for keys and texts of any length. */
  function CodeHmac(key: seq<Byte>, text: seq<Byte>): seq<Byte> {
    var inner := DigestWith(XorAll(CodeBlock(key), 0x36) + text, InnerLength(|text|));
    Sha1(XorAll(CodeBlock(key), 0x5C) + inner)
  }

  lemma {:induction false} BlockIsRight(key: seq<Byte>)
    requires |key| < 0x2000_0000
    ensures CodeBlock(key) == KeyBlock(key)
  {
    LengthExactly(|key|);
  }

  /** hmac_sha1: two contexts, one for each padded key; the key is turned from the one
      into the other in place.  It is HMAC when the lengths are counted right. */
  method HmacSha1(key: seq<Byte>, text: seq<Byte>) returns (digest: seq<Byte>)
    ensures digest == CodeHmac(key, text)
    ensures |key| < 0x2000_0000 && (|text| < 0x2000_0000 || Carries(512, |text|)) ==> digest == Hmac(key, text)
  {
    hide Sha1, Chain, DigestOf, NumberBytes, Carries, HighCount, NextHigh, KeyBlock, CodeBlock, XorAll, DigestWith;
    var rkey := new Byte[64](_ => 0);
    LoadKey(rkey, key);
    if |key| < 0x2000_0000 { BlockIsRight(key); }
    XorKey(rkey, 0x5C);
    var ctx1 := Begin(rkey[..]);
    XorKey(rkey, 0x5C ^ 0x36);
    XorBoth(CodeBlock(key));
    var ctx2 := Begin(rkey[..]);
    ctx2.Update(text);
    var digest2 := ctx2.Final();
    ctx1.Update(digest2);
    digest := ctx1.Final();
  }

  /** A context that begins with one block. */
  method Begin(block: seq<Byte>) returns (context: Context)
    requires |block| == 64
    ensures fresh(context) && fresh(context.buffer)
    ensures context.Valid() && context.Counted() && context.data == block
    ensures context.count0 == 512 && context.count1 == 0
  {
    hide Chain, Carries;
    context := new Context();
    context.Update(block);
    assert [] + block == block;
  }

  method LoadKey(rkey: array<Byte>, key: seq<Byte>)
    requires rkey.Length == 64 && (forall i :: 0 <= i < 64 ==> rkey[i] == 0)
    modifies rkey
    ensures rkey[..] == CodeBlock(key)
  {
    hide Sha1;
    var k := key;
    if |key| > 64 {
      k := Digest(key);
    }
    for i := 0 to |k|
      invariant rkey[..i] == k[..i] && forall j :: i <= j < 64 ==> rkey[j] == 0
    {
      rkey[i] := k[i];
    }
    assert rkey[..] == rkey[..|k|] + rkey[|k|..];
    assert rkey[|k|..] == Zeros(64 - |k|);
  }

  method XorKey(rkey: array<Byte>, b: Byte)
    modifies rkey
    ensures rkey[..] == XorAll(old(rkey[..]), b)
  {
    for i := 0 to rkey.Length
      invariant forall j :: 0 <= j < i ==> rkey[j] == old(rkey[j]) ^ b
      invariant forall j :: i <= j < rkey.Length ==> rkey[j] == old(rkey[j])
    {
      rkey[i] := rkey[i] ^ b;
    }
  }

  lemma {:induction false} XorBits(b: Byte)
    ensures b ^ 0x5C ^ (0x5C ^ 0x36) == b ^ 0x36
  {
  }

  lemma {:induction false} XorBoth(s: seq<Byte>)
    ensures XorAll(XorAll(s, 0x5C), 0x5C ^ 0x36) == XorAll(s, 0x36)
  {
    forall i | 0 <= i < |s| ensures s[i] ^ 0x5C ^ (0x5C ^ 0x36) == s[i] ^ 0x36 { XorBits(s[i]); }
  }
}
