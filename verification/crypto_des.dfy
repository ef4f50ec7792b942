/** DES of the crypto library, from the bits of its permutations to whole texts
    with padding.  The S-boxes and the key schedule are parameters: decoding
    undoes encoding whatever they are. */
module CryptoDes {
  import opened CryptoWords

  /** The eight S-boxes; each is looked up with six bits. */
  datatype Boxes = Boxes(sb1: bv6 -> Word, sb2: bv6 -> Word, sb3: bv6 -> Word, sb4: bv6 -> Word,
                         sb5: bv6 -> Word, sb6: bv6 -> Word, sb7: bv6 -> Word, sb8: bv6 -> Word)

  /** Two words for each of the sixteen rounds. */
  type Keys = sk: seq<Word> | |sk| == 32 witness seq(32, _ => 0)

  datatype Pair = Pair(x: Word, y: Word)

  // ----------------------------------------------------------- permutations

  // Exchanges of the bits of `x` and `y` under a mask.

  function Exchange4(p: Pair): Pair {
    var t := ((p.x >> 4) ^ p.y) & 0x0F0F0F0F;
    Pair(p.x ^ (t << 4), p.y ^ t)
  }

  function Exchange16(p: Pair): Pair {
    var t := ((p.x >> 16) ^ p.y) & 0x0000FFFF;
    Pair(p.x ^ (t << 16), p.y ^ t)
  }

  function Exchange2(p: Pair): Pair {
    var t := ((p.y >> 2) ^ p.x) & 0x33333333;
    Pair(p.x ^ t, p.y ^ (t << 2))
  }

  function Exchange8(p: Pair): Pair {
    var t := ((p.y >> 8) ^ p.x) & 0x00FF00FF;
    Pair(p.x ^ t, p.y ^ (t << 8))
  }

  function ExchangeOdd(p: Pair): Pair {
    var t := (p.x ^ p.y) & 0xAAAAAAAA;
    Pair(p.x ^ t, p.y ^ t)
  }

  function Left(w: Word): Word { (w << 1) | (w >> 31) }

  function Right(w: Word): Word { (w << 31) | (w >> 1) }

  /** The initial permutation. */
  function Initial(p: Pair): Pair {
    var q := Exchange8(Exchange2(Exchange16(Exchange4(p))));
    var r := ExchangeOdd(q.(y := Left(q.y)));
    r.(x := Left(r.x))
  }

  /** The final permutation. */
  function Final(p: Pair): Pair {
    var q := ExchangeOdd(p.(x := Right(p.x)));
    Exchange4(Exchange16(Exchange2(Exchange8(q.(y := Right(q.y))))))
  }

  lemma {:induction false} Exchange4Twice(p: Pair)
    ensures Exchange4(Exchange4(p)) == p
  {
  }

  lemma {:induction false} Exchange16Twice(p: Pair)
    ensures Exchange16(Exchange16(p)) == p
  {
  }

  lemma {:induction false} Exchange2Twice(p: Pair)
    ensures Exchange2(Exchange2(p)) == p
  {
  }

  lemma {:induction false} Exchange8Twice(p: Pair)
    ensures Exchange8(Exchange8(p)) == p
  {
  }

  lemma {:induction false} ExchangeOddTwice(p: Pair)
    ensures ExchangeOdd(ExchangeOdd(p)) == p
  {
  }

  lemma {:induction false} Rotations(w: Word)
    ensures Right(Left(w)) == w && Left(Right(w)) == w
  {
  }

  /** Each permutation undoes the other. */
  lemma {:induction false} PermutationsInverse(p: Pair)
    ensures Final(Initial(p)) == p && Initial(Final(p)) == p
  {
    hide Exchange4, Exchange16, Exchange2, Exchange8, ExchangeOdd, Left, Right;
    FinalInitial(p);
    InitialFinal(p);
  }

  lemma {:induction false} FinalInitial(p: Pair)
    ensures Final(Initial(p)) == p
  {
    hide Exchange4, Exchange16, Exchange2, Exchange8, ExchangeOdd, Left, Right;
    var a, b, c := Exchange4(p), Exchange16(Exchange4(p)), Exchange2(Exchange16(Exchange4(p)));
    var q := Exchange8(c);
    var s := q.(y := Left(q.y));
    var r := ExchangeOdd(s);
    Rotations(r.x);
    Rotations(q.y);
    assert r.(x := Left(r.x)).(x := Right(Left(r.x))) == r;
    ExchangeOddTwice(s);
    Exchange8Twice(c);
    Exchange2Twice(b);
    Exchange16Twice(a);
    Exchange4Twice(p);
  }

  lemma {:induction false} InitialFinal(p: Pair)
    ensures Initial(Final(p)) == p
  {
    hide Exchange4, Exchange16, Exchange2, Exchange8, ExchangeOdd, Left, Right;
    var s := p.(x := Right(p.x));
    var q := ExchangeOdd(s);
    var u := q.(y := Right(q.y));
    var a, b, c := Exchange8(u), Exchange2(Exchange8(u)), Exchange16(Exchange2(Exchange8(u)));
    Exchange4Twice(c);
    Exchange16Twice(b);
    Exchange2Twice(a);
    Exchange8Twice(u);
    Rotations(q.y);
    Rotations(p.x);
    ExchangeOddTwice(s);
  }

  // ----------------------------------------------------------------- rounds

  /** The round function: what one half contributes to the other. */
  function Mix(bx: Boxes, w: Word, k: Word, l: Word): Word {
    var t := k ^ w;
    var u := l ^ ((w << 28) | (w >> 4));
    bx.sb8(Six(t)) ^ bx.sb6(Six(t >> 8)) ^ bx.sb4(Six(t >> 16)) ^ bx.sb2(Six(t >> 24))
    ^ bx.sb7(Six(u)) ^ bx.sb5(Six(u >> 8)) ^ bx.sb3(Six(u >> 16)) ^ bx.sb1(Six(u >> 24))
  }

  /** The macro DES_ROUND: `x` takes in what `y` contributes. */
  function Mixed(bx: Boxes, x: Word, y: Word, k: Word, l: Word): Word { x ^ Mix(bx, y, k, l) }

  function Six(w: Word): bv6 { (w & 0x3F) as bv6 }

  /** Even rounds change `x`, odd rounds change `y`. */
  function Round(bx: Boxes, sk: Keys, i: nat, p: Pair): Pair
    requires i < 16
  {
    if i % 2 == 0 then p.(x := Mixed(bx, p.x, p.y, sk[2 * i], sk[2 * i + 1]))
    else p.(y := Mixed(bx, p.y, p.x, sk[2 * i], sk[2 * i + 1]))
  }

  function Rounds(bx: Boxes, sk: Keys, n: nat, p: Pair): Pair
    requires n <= 16
  {
    if n == 0 then p else Round(bx, sk, n - 1, Rounds(bx, sk, n - 1, p))
  }

  function Swapped(p: Pair): Pair { Pair(p.y, p.x) }

  /** The keys for decoding: the pairs of words in the opposite order. */
  function Reversed(sk: Keys): Keys {
    seq(32, i requires 0 <= i < 32 => if i % 2 == 0 then sk[30 - i] else sk[32 - i])
  }

  lemma {:induction false} ReversedTwice(sk: Keys)
    ensures Reversed(Reversed(sk)) == sk
  {
  }

  lemma {:induction false} ReversedAt(sk: Keys, i: nat)
    requires i < 16
    ensures Reversed(sk)[2 * (15 - i)] == sk[2 * i] && Reversed(sk)[2 * (15 - i) + 1] == sk[2 * i + 1]
  {
  }

  lemma {:induction false} XorTwice(a: Word, b: Word)
    ensures a ^ b ^ b == a
  {
  }

  lemma {:induction false} MixedTwice(bx: Boxes, x: Word, y: Word, k: Word, l: Word)
    ensures Mixed(bx, Mixed(bx, x, y, k, l), y, k, l) == x
  {
    hide Mix;
    XorTwice(x, Mix(bx, y, k, l));
  }

  /** A round with the halves swapped and the key of the opposite round undoes that round. */
  lemma {:induction false} RoundUndone(bx: Boxes, sk: Keys, i: nat, p: Pair)
    requires i < 16
    ensures Round(bx, Reversed(sk), 15 - i, Swapped(Round(bx, sk, i, p))) == Swapped(p)
  {
    hide Mixed, Reversed;
    var k, l := sk[2 * i], sk[2 * i + 1];
    ReversedAt(sk, i);
    if i % 2 == 0 { MixedTwice(bx, p.x, p.y, k, l); } else { MixedTwice(bx, p.y, p.x, k, l); }
  }

  /** All sixteen rounds with the reversed keys undo all sixteen rounds. */
  lemma {:induction false} RoundsUndone(bx: Boxes, sk: Keys, n: nat, p: Pair)
    requires n <= 16
    ensures Rounds(bx, Reversed(sk), n, Swapped(Rounds(bx, sk, 16, p))) == Swapped(Rounds(bx, sk, 16 - n, p))
  {
    hide Round, Reversed;
    if n > 0 {
      RoundsUndone(bx, sk, n - 1, p);
      RoundUndone(bx, sk, 16 - n, Rounds(bx, sk, 16 - n, p));
    }
  }

  /** One block, as two words. */
  function CryptPair(bx: Boxes, sk: Keys, p: Pair): Pair { Final(Swapped(Rounds(bx, sk, 16, Initial(p)))) }

  lemma {:induction false} CryptPairUndone(bx: Boxes, sk: Keys, p: Pair)
    ensures CryptPair(bx, Reversed(sk), CryptPair(bx, sk, p)) == p
  {
    hide Initial, Final, Rounds, Reversed;
    var q := Initial(p);
    PermutationsInverse(Swapped(Rounds(bx, sk, 16, q)));
    RoundsUndone(bx, sk, 16, q);
    assert Rounds(bx, sk, 0, q) == q by { NoRounds(bx, sk, q); }
    PermutationsInverse(p);
  }

  lemma {:induction false} NoRounds(bx: Boxes, sk: Keys, p: Pair)
    ensures Rounds(bx, sk, 0, p) == p
  {
  }

  // ----------------------------------------------------------------- blocks

  type Block = b: seq<Byte> | |b| == 8 witness seq(8, _ => 0)

  function PairOf(b: Block): Pair { Pair(GetWord(b[0], b[1], b[2], b[3]), GetWord(b[4], b[5], b[6], b[7])) }

  function BlockOf(p: Pair): Block { PutWord(p.x) + PutWord(p.y) }

  lemma {:induction false} BlockOfPair(b: Block)
    ensures BlockOf(PairOf(b)) == b
  {
    hide GetWord, Byte0, Byte1, Byte2, Byte3;
    PutGet(b[0], b[1], b[2], b[3]);
    PutGet(b[4], b[5], b[6], b[7]);
    var p := PairOf(b);
    assert PutWord(p.x) == [b[0], b[1], b[2], b[3]] && PutWord(p.y) == [b[4], b[5], b[6], b[7]];
    assert b == [b[0], b[1], b[2], b[3]] + [b[4], b[5], b[6], b[7]];
  }

  lemma {:induction false} PairOfBlock(p: Pair)
    ensures PairOf(BlockOf(p)) == p
  {
    hide GetWord, Byte0, Byte1, Byte2, Byte3;
    GetPut(p.x);
    GetPut(p.y);
    var b := BlockOf(p);
    var x, y := PutWord(p.x), PutWord(p.y);
    assert b[0] == x[0] && b[1] == x[1] && b[2] == x[2] && b[3] == x[3];
    assert b[4] == y[0] && b[5] == y[1] && b[6] == y[2] && b[7] == y[3];
  }

  /** One block of eight bytes. */
  function Crypt(bx: Boxes, sk: Keys, b: Block): Block { BlockOf(CryptPair(bx, sk, PairOf(b))) }

  lemma {:induction false} CryptUndone(bx: Boxes, sk: Keys, b: Block)
    ensures Crypt(bx, Reversed(sk), Crypt(bx, sk, b)) == b
  {
    hide CryptPair, BlockOf, PairOf, Reversed;
    var p := PairOf(b);
    BlockOfPair(b);
    PairOfBlock(CryptPair(bx, sk, p));
    CryptPairUndone(bx, sk, p);
  }

  lemma {:induction false} EvenRound(bx: Boxes, sk: Keys, i: nat, p: Pair)
    requires i < 8
    ensures Round(bx, sk, 2 * i, p) == p.(x := Mixed(bx, p.x, p.y, sk[4 * i], sk[4 * i + 1]))
  {
    hide Mixed;
  }

  lemma {:induction false} OddRound(bx: Boxes, sk: Keys, i: nat, p: Pair)
    requires i < 8
    ensures Round(bx, sk, 2 * i + 1, p) == p.(y := Mixed(bx, p.y, p.x, sk[4 * i + 2], sk[4 * i + 3]))
  {
    hide Mixed;
    assert 2 * (2 * i + 1) == 4 * i + 2;
  }

  lemma {:induction false} NextRound(bx: Boxes, sk: Keys, n: nat, p: Pair)
    requires n < 16
    ensures Rounds(bx, sk, n + 1, p) == Round(bx, sk, n, Rounds(bx, sk, n, p))
  {
    hide Round;
  }

  lemma {:induction false} TwoRounds(bx: Boxes, sk: Keys, i: nat, p: Pair, x: Word, y: Word)
    requires i < 8 && Rounds(bx, sk, 2 * i, p) == Pair(x, y)
    ensures var x' := Mixed(bx, x, y, sk[4 * i], sk[4 * i + 1]);
            Rounds(bx, sk, 2 * (i + 1), p) == Pair(x', Mixed(bx, y, x', sk[4 * i + 2], sk[4 * i + 3]))
  {
    hide Round, Mixed, Rounds;
    NextRound(bx, sk, 2 * i, p);
    EvenRound(bx, sk, i, Pair(x, y));
    NextRound(bx, sk, 2 * i + 1, p);
    OddRound(bx, sk, i, Rounds(bx, sk, 2 * i + 1, p));
  }

  /** The sixteen rounds, two by two. */
  method CryptRounds(bx: Boxes, sk: Keys, p: Pair) returns (q: Pair)
    ensures q == Rounds(bx, sk, 16, p)
  {
    assert Rounds(bx, sk, 0, p) == p;
    hide Mixed, Round, Rounds;
    var x, y := p.x, p.y;
    for i := 0 to 8
      invariant Rounds(bx, sk, 2 * i, p) == Pair(x, y)
    {
      TwoRounds(bx, sk, i, p, x, y);
      x := Mixed(bx, x, y, sk[4 * i], sk[4 * i + 1]);
      y := Mixed(bx, y, x, sk[4 * i + 2], sk[4 * i + 3]);
    }
    q := Pair(x, y);
  }

  /** des_crypt */
  method DesCrypt(bx: Boxes, sk: Keys, input: Block) returns (output: Block)
    ensures output == Crypt(bx, sk, input)
  {
    hide GetWord, PutWord, Initial, Final, Rounds;
    var x := GetWord(input[0], input[1], input[2], input[3]);
    var y := GetWord(input[4], input[5], input[6], input[7]);
    var p := CryptRounds(bx, sk, Initial(Pair(x, y)));
    var q := Final(Pair(p.y, p.x));
    output := PutWord(q.x) + PutWord(q.y);
  }

  // ------------------------------------------------------------------ texts

  /** Whole blocks, one by one. */
  function CryptAll(bx: Boxes, sk: Keys, s: seq<Byte>): (r: seq<Byte>)
    requires |s| % 8 == 0
    ensures |r| == |s|
  {
    if s == [] then []
    else
      var m := |s| - 8;
      CryptAll(bx, sk, s[..m]) + Crypt(bx, sk, s[m..])
  }

  lemma {:induction false} CryptNext(bx: Boxes, sk: Keys, s: seq<Byte>, i: nat)
    requires i % 8 == 0 && i + 8 <= |s|
    ensures CryptAll(bx, sk, s[..i + 8]) == CryptAll(bx, sk, s[..i]) + Crypt(bx, sk, s[i..i + 8])
  {
    hide Crypt;
    assert s[..i + 8][..i] == s[..i] && s[..i + 8][i..] == s[i..i + 8];
  }

  lemma {:induction false} CryptAllUndone(bx: Boxes, sk: Keys, s: seq<Byte>)
    requires |s| % 8 == 0
    ensures CryptAll(bx, Reversed(sk), CryptAll(bx, sk, s)) == s
  {
    hide Crypt, Reversed;
    if s != [] {
      var m := |s| - 8;
      var c := CryptAll(bx, sk, s);
      assert c[..m] == CryptAll(bx, sk, s[..m]) && c[m..] == Crypt(bx, sk, s[m..]);
      CryptAllUndone(bx, sk, s[..m]);
      CryptUndone(bx, sk, s[m..]);
      assert s == s[..m] + s[m..];
    }
  }

  // ---------------------------------------------------------------- padding

  datatype Mode = Iso7816 | Pkcs7

  function Repeat(b: Byte, n: nat): (r: seq<Byte>)
    ensures |r| == n
  {
    seq(n, _ => b)
  }

  /** The bytes that fill up a block; `n` of them are needed. */
  function Padding(mode: Mode, n: nat): (r: seq<Byte>)
    requires 1 <= n <= 8
    ensures |r| == n
  {
    match mode
    case Iso7816 => [0x80] + Repeat(0, n - 1)
    case Pkcs7 => Repeat(n as Byte, n)
  }

  function Padded(mode: Mode, text: seq<Byte>): (r: seq<Byte>)
    ensures |r| % 8 == 0 && |r| > 0
  {
    text + Padding(mode, 8 - |text| % 8)
  }

  /** The length of the padding; `Outside`: its removal looks at bytes before the text. */
  datatype Removal = Length(n: nat) | Outside

  function ScanIso(s: seq<Byte>, i: nat): Removal
    requires |s| >= 8 && i <= 8
    decreases 8 - i
  {
    if i == 8 then Length(0)
    else if s[|s| - 1 - i] == 0 then ScanIso(s, i + 1)
    else if s[|s| - 1 - i] == 0x80 then Length(i + 1)
    else Length(0)
  }

  function ScanPkcs7(s: seq<Byte>, b: Byte, p: nat, i: nat): Removal
    decreases p - i
  {
    if i >= p then Length(p)
    else if i >= |s| then Outside
    else if s[|s| - 1 - i] != b then Length(0)
    else ScanPkcs7(s, b, p, i + 1)
  }

  function Remove(mode: Mode, s: seq<Byte>): Removal
    requires |s| >= 8
  {
    match mode
    case Iso7816 => ScanIso(s, 0)
    case Pkcs7 => ScanPkcs7(s, s[|s| - 1], s[|s| - 1] as nat, 1)
  }

  ghost predicate EndsWith(s: seq<Byte>, tail: seq<Byte>) { |tail| <= |s| && s[|s| - |tail|..] == tail }

  lemma {:induction false} ScanIsoMeans(s: seq<Byte>, i: nat, n: nat)
    requires |s| >= 8 && i <= 8 && n > 0
    requires forall j :: |s| - i <= j < |s| ==> s[j] == 0
    ensures ScanIso(s, i) == Length(n) <==> i < n <= 8 && EndsWith(s, Padding(Iso7816, n))
    decreases 8 - i
  {
    if i < 8 && s[|s| - 1 - i] == 0 {
      ScanIsoMeans(s, i + 1, n);
      if n == i + 1 { assert Padding(Iso7816, n)[0] == 0x80 && s[|s| - n..][0] == 0; }
    } else if i < 8 && i < n <= 8 {
      if n > i + 1 { assert Padding(Iso7816, n)[n - 1 - i] == 0 && s[|s| - n..][n - 1 - i] == s[|s| - 1 - i]; }
      if n == i + 1 { IsoTail(s, n); }
    }
  }

  lemma {:induction false} IsoTail(s: seq<Byte>, n: nat)
    requires |s| >= 8 && 1 <= n <= 8
    requires forall j :: |s| - n < j < |s| ==> s[j] == 0
    ensures s[|s| - n] == 0x80 <==> EndsWith(s, Padding(Iso7816, n))
  {
    var tail := s[|s| - n..];
    assert tail[0] == s[|s| - n];
    if tail[0] == 0x80 { assert tail == Padding(Iso7816, n); }
  }

  lemma {:induction false} ScanPkcs7Means(s: seq<Byte>, b: Byte, p: nat, i: nat)
    requires |s| >= 8 && 1 <= i <= |s| && (p > 0 ==> i <= p) && Tail(s, b, i)
    ensures p <= |s| ==> ScanPkcs7(s, b, p, i) == Length(if Tail(s, b, p) then p else 0)
    ensures p > |s| ==> (ScanPkcs7(s, b, p, i) == Outside <==> Tail(s, b, |s|))
    ensures p > |s| ==> ScanPkcs7(s, b, p, i) == Outside || ScanPkcs7(s, b, p, i) == Length(0)
    decreases p - i
  {
    if i < p && i < |s| {
      var j := |s| - 1 - i;
      if s[j] == b {
        forall k | 0 <= k < |s| && |s| - (i + 1) <= k ensures s[k] == b {
          assert k == j || |s| - i <= k;
        }
        ScanPkcs7Means(s, b, p, i + 1);
      } else {
        assert !Tail(s, b, p) && !Tail(s, b, |s|);
      }
    } else if i >= |s| {
      assert Tail(s, b, |s|) && (p <= |s| ==> Tail(s, b, p));
    }
  }

  /** The last `n` bytes all are `b`. */
  predicate Tail(s: seq<Byte>, b: Byte, n: nat) {
    forall j :: 0 <= j < |s| && |s| - n <= j ==> s[j] == b
  }

  lemma {:induction false} TailIsPadding(s: seq<Byte>, n: nat)
    requires |s| >= 8 && 1 <= n <= 8
    ensures EndsWith(s, Padding(Pkcs7, n)) <==> Tail(s, n as Byte, n)
  {
    var tail := s[|s| - n..];
    forall j | |s| - n <= j < |s| ensures s[j] == tail[j - (|s| - n)] {}
    if Tail(s, n as Byte, n) {
      assert tail == Padding(Pkcs7, n);
    }
    if EndsWith(s, Padding(Pkcs7, n)) {
      forall j | |s| - n <= j < |s| ensures s[j] == n as Byte {
        assert s[j] == Padding(Pkcs7, n)[j - (|s| - n)];
      }
    }
  }

  lemma {:induction false} ByteValue(b: Byte, n: nat)
    requires 1 <= n <= 8
    ensures b as nat == n <==> b == n as Byte
  {
    if n <= 4 {
      if n == 1 {
      } else if n == 2 {
      } else if n == 3 {
      }
    } else if n == 5 {
    } else if n == 6 {
    } else if n == 7 {
    }
  }

  /** What is removed is exactly a padding: of length `n`, for `n` from one to eight. */
  lemma {:induction false} RemoveMeans(mode: Mode, s: seq<Byte>, n: nat)
    requires |s| >= 8 && 1 <= n <= 8
    ensures Remove(mode, s) == Length(n) <==> EndsWith(s, Padding(mode, n))
  {
    if mode == Iso7816 {
      ScanIsoMeans(s, 0, n);
    } else {
      hide ScanPkcs7, Padding, EndsWith;
      var b := s[|s| - 1];
      ScanPkcs7Means(s, b, b as nat, 1);
      TailIsPadding(s, n);
      ByteValue(b, n);
    }
  }

  /** Removal looks outside the text exactly when this is a text of one byte repeated,
      shorter than the padding that this byte announces. */
  lemma {:induction false} OutsideExactly(mode: Mode, s: seq<Byte>)
    requires |s| >= 8
    ensures Remove(mode, s) == Outside
            <==> mode == Pkcs7 && s[|s| - 1] as nat > |s| && forall k :: 0 <= k < |s| ==> s[k] == s[|s| - 1]
  {
    if mode == Iso7816 {
      IsoInside(s, 0);
    } else {
      hide ScanPkcs7;
      ScanPkcs7Means(s, s[|s| - 1], s[|s| - 1] as nat, 1);
    }
  }

  lemma {:induction false} IsoInside(s: seq<Byte>, i: nat)
    requires |s| >= 8 && i <= 8
    ensures ScanIso(s, i) != Outside
    decreases 8 - i
  {
    if i < 8 { IsoInside(s, i + 1); }
  }

  // ----------------------------------------------------- encode and decode

  datatype Result = Done(text: seq<Byte>) | BadKey | BadMode | BadLength | BadText | Undefined

  /** What desencode returns; `schedule` makes the round keys. */
  function Encode(bx: Boxes, schedule: Block -> Keys, key: seq<Byte>, text: seq<Byte>, mode: int): Result {
    if |key| != 8 then BadKey
    else if mode != 0 && mode != 1 then BadMode
    else Done(CryptAll(bx, schedule(key), Padded(if mode == 0 then Iso7816 else Pkcs7, text)))
  }

  /** What desdecode returns. */
  function Decode(bx: Boxes, schedule: Block -> Keys, key: seq<Byte>, text: seq<Byte>, mode: int): Result {
    if |key| != 8 then BadKey
    else if |text| % 8 != 0 || text == [] then BadLength
    else if mode != 0 && mode != 1 then BadMode
    else Unpad(if mode == 0 then Iso7816 else Pkcs7, CryptAll(bx, Reversed(schedule(key)), text))
  }

  function Unpad(mode: Mode, s: seq<Byte>): Result
    requires |s| >= 8
  {
    match Remove(mode, s)
    case Outside => Undefined
    case Length(n) => if n == 0 || n > 8 then BadText else Done(s[..|s| - n])
  }

  /** Taking padding off gives a text exactly when adding it to that text gives these bytes. */
  lemma {:induction false} UnpadExactly(mode: Mode, s: seq<Byte>, t: seq<Byte>)
    requires |s| >= 8 && |s| % 8 == 0
    ensures Unpad(mode, s) == Done(t) <==> Padded(mode, t) == s
  {
    hide Remove, Padding;
    var r := Remove(mode, s);
    if r.Length? && 1 <= r.n <= 8 {
      RemoveMeans(mode, s, r.n);
      SplitTail(mode, s, r.n);
    }
    if Padded(mode, t) == s {
      var n := 8 - |t| % 8;
      assert s[|s| - n..] == Padding(mode, n) && s[..|s| - n] == t;
      RemoveMeans(mode, s, n);
    }
  }

  lemma {:induction false} SplitTail(mode: Mode, s: seq<Byte>, n: nat)
    requires |s| >= 8 && |s| % 8 == 0 && 1 <= n <= 8 && EndsWith(s, Padding(mode, n))
    ensures Padded(mode, s[..|s| - n]) == s
  {
    hide Padding;
    var t := s[..|s| - n];
    assert s == t + s[|s| - n..];
    assert 8 - |t| % 8 == n;
  }

  /** Decoding gives a text exactly when encoding this text gives these bytes: each
      undoes the other, for every key, every S-box, every key schedule and both paddings. */
  lemma {:induction false} DecodeExactly(bx: Boxes, schedule: Block -> Keys, key: seq<Byte>, mode: int,
                                         text: seq<Byte>, code: seq<Byte>)
    ensures Decode(bx, schedule, key, code, mode) == Done(text)
            <==> Encode(bx, schedule, key, text, mode) == Done(code)
  {
    hide Remove, Padding, Crypt;
    if |key| == 8 && (mode == 0 || mode == 1) {
      var m := if mode == 0 then Iso7816 else Pkcs7;
      var sk := schedule(key);
      CryptAllUndone(bx, sk, Padded(m, text));
      if |code| % 8 == 0 && code != [] {
        var s := CryptAll(bx, Reversed(sk), code);
        UnpadExactly(m, s, text);
        ReversedTwice(sk);
        CryptAllUndone(bx, Reversed(sk), code);
      }
    }
  }

  /** One byte, again and again. */
  function Repeated(b: Byte, n: nat): seq<Byte> { seq(n, _ => b) }

  /** Do these bytes announce more padding than there are bytes, and nothing else? */
  ghost predicate AllPadding(s: seq<Byte>) {
    exists b, n: nat :: 0 < n < b as nat && n % 8 == 0 && s == Repeated(b, n)
  }

  /** Decoding reads before the text exactly when the code is the enciphered form of one byte
      repeated, less often than this byte says. */
  lemma {:induction false} UndefinedExactly(bx: Boxes, schedule: Block -> Keys, key: seq<Byte>, mode: int,
                                            code: seq<Byte>)
    ensures Decode(bx, schedule, key, code, mode) == Undefined
            <==> |key| == 8 && mode == 1
                 && exists s :: |s| % 8 == 0 && AllPadding(s) && code == CryptAll(bx, schedule(key), s)
  {
    hide Remove, Crypt, CryptAll, Reversed, AllPadding;
    if |key| == 8 && mode == 1 {
      var sk := schedule(key);
      ReversedTwice(sk);
      if |code| % 8 == 0 && code != [] {
        var s := CryptAll(bx, Reversed(sk), code);
        CryptAllUndone(bx, Reversed(sk), code);
        OutsideIsPadding(s);
      }
      forall s | |s| % 8 == 0 && AllPadding(s) && code == CryptAll(bx, sk, s)
        ensures Decode(bx, schedule, key, code, mode) == Undefined
      {
        CryptAllUndone(bx, sk, s);
        OutsideIsPadding(s);
      }
    } else if |key| == 8 && mode == 0 && |code| % 8 == 0 && code != [] {
      OutsideExactly(Iso7816, CryptAll(bx, Reversed(schedule(key)), code));
    }
  }

  lemma {:induction false} OutsideIsPadding(s: seq<Byte>)
    requires |s| % 8 == 0
    ensures AllPadding(s) ==> s != []
    ensures s != [] ==> (Remove(Pkcs7, s) == Outside <==> AllPadding(s))
  {
    if s != [] {
      OutsideExactly(Pkcs7, s);
      var b := s[|s| - 1];
      if Remove(Pkcs7, s) == Outside { assert s == Repeated(b, |s|); }
    }
  }

  /** It happens: a block of nines. */
  lemma {:induction false} UndefinedCode(bx: Boxes, schedule: Block -> Keys, key: seq<Byte>)
    requires |key| == 8
    ensures Decode(bx, schedule, key, CryptAll(bx, schedule(key), Repeated(9, 8)), 1) == Undefined
  {
    hide CryptAll, Decode;
    var b: Byte := 9;
    assert b as nat == 9;
    assert AllPadding(Repeated(b, 8));
    UndefinedExactly(bx, schedule, key, 1, CryptAll(bx, schedule(key), Repeated(9, 8)));
  }

  method RemoveIso(buffer: array<Byte>) returns (padding: nat)
    requires buffer.Length >= 8
    ensures Remove(Iso7816, buffer[..]) == Length(padding)
  {
    padding := 1;
    var i := 0;
    while i < 8
      invariant 0 <= i <= 8 && padding == i + 1
      invariant ScanIso(buffer[..], 0) == ScanIso(buffer[..], i)
    {
      var last := buffer[buffer.Length - 1 - i];
      if last == 0 {
        padding := padding + 1;
      } else if last == 0x80 {
        return padding;
      } else {
        break;
      }
      i := i + 1;
    }
    return 0;
  }

  method RemovePkcs7(buffer: array<Byte>) returns (r: Removal)
    requires buffer.Length >= 8
    ensures r == Remove(Pkcs7, buffer[..])
  {
    var last := buffer[buffer.Length - 1];
    var padding := last as nat;
    var i := 1;
    while i < padding
      invariant 1 <= i
      invariant ScanPkcs7(buffer[..], last, padding, 1) == ScanPkcs7(buffer[..], last, padding, i)
    {
      if i >= buffer.Length {
        return Outside;
      }
      if buffer[buffer.Length - 1 - i] != last {
        return Length(0);
      }
      i := i + 1;
    }
    return Length(padding);
  }

  /** desencode, block by block into a buffer. */
  method DesEncode(bx: Boxes, schedule: Block -> Keys, key: seq<Byte>, text: seq<Byte>, mode: int)
    returns (result: Result)
    ensures result == Encode(bx, schedule, key, text, mode)
  {
    hide Crypt, Padded, Padding;
    assert CryptAll(bx, schedule([0, 0, 0, 0, 0, 0, 0, 0]), []) == [];
    if |key| != 8 {
      return BadKey;
    }
    var sk := schedule(key);
    var buffer := new Byte[|text| / 8 * 8 + 8](_ => 0);
    var i := 0;
    while i < |text| - 7
      invariant 0 <= i <= |text| && i % 8 == 0 && i + 8 <= buffer.Length
      invariant buffer[..i] == CryptAll(bx, sk, text[..i])
    {
      var block := DesCrypt(bx, sk, text[i..i + 8]);
      Store(buffer, i, block);
      CryptNext(bx, sk, text, i);
      i := i + 8;
    }
    if mode != 0 && mode != 1 {
      return BadMode;
    }
    var m := if mode == 0 then Iso7816 else Pkcs7;
    var tail := text[i..] + Padding(m, 8 - (|text| - i));
    var block := DesCrypt(bx, sk, tail);
    Store(buffer, i, block);
    PaddedTail(bx, sk, m, text, i);
    assert buffer[..] == buffer[..i + 8];
    result := Done(buffer[..]);
  }

  lemma {:induction false} PaddedTail(bx: Boxes, sk: Keys, mode: Mode, text: seq<Byte>, i: nat)
    requires i % 8 == 0 && i <= |text| < i + 8
    ensures var tail := text[i..] + Padding(mode, 8 - (|text| - i));
            CryptAll(bx, sk, Padded(mode, text)) == CryptAll(bx, sk, text[..i]) + Crypt(bx, sk, tail)
  {
    var tail := text[i..] + Padding(mode, 8 - (|text| - i));
    PaddedIs(mode, text, i);
    hide Crypt, CryptAll, Padding, Padded;
    Ends(text[..i], tail);
    CryptNext(bx, sk, Padded(mode, text), i);
  }

  lemma {:induction false} PaddedIs(mode: Mode, text: seq<Byte>, i: nat)
    requires i % 8 == 0 && i <= |text| < i + 8
    ensures Padded(mode, text) == text[..i] + (text[i..] + Padding(mode, 8 - (|text| - i)))
  {
    hide Padding;
    assert text[..i] + text[i..] == text;
  }

  lemma {:induction false} Ends(a: seq<Byte>, b: Block)
    ensures var s := a + b;
            s[..|a|] == a && s[|a|..|a| + 8] == b && s[..|a| + 8] == s
  {
  }

  method Store(buffer: array<Byte>, at: nat, block: Block)
    requires at + 8 <= buffer.Length
    modifies buffer
    ensures buffer[..at + 8] == old(buffer[..at]) + block
  {
    for k := 0 to 8
      invariant buffer[..at] == old(buffer[..at])
      invariant forall j :: 0 <= j < k ==> buffer[at + j] == block[j]
    {
      buffer[at + k] := block[k];
    }
    assert buffer[..at + 8] == buffer[..at] + buffer[at..at + 8];
    assert buffer[at..at + 8] == block;
  }

  /** desdecode, with the keys reversed pair by pair. */
  method DesDecode(bx: Boxes, schedule: Block -> Keys, key: seq<Byte>, text: seq<Byte>, mode: int)
    returns (result: Result)
    ensures result == Decode(bx, schedule, key, text, mode)
  {
    hide Crypt;
    if |key| != 8 {
      return BadKey;
    }
    var sk := ReverseKeys(schedule(key));
    if |text| % 8 != 0 || text == [] {
      return BadLength;
    }
    var buffer := new Byte[|text|](_ => 0);
    var i := 0;
    while i < |text|
      invariant 0 <= i <= |text| && i % 8 == 0
      invariant buffer[..i] == CryptAll(bx, sk, text[..i])
    {
      var block := DesCrypt(bx, sk, text[i..i + 8]);
      Store(buffer, i, block);
      CryptNext(bx, sk, text, i);
      i := i + 8;
    }
    assert text[..i] == text && buffer[..i] == buffer[..];
    if mode == 0 {
      var padding := RemoveIso(buffer);
      result := if padding <= 0 || padding > 8 then BadText else Done(buffer[..|text| - padding]);
    } else if mode == 1 {
      var r := RemovePkcs7(buffer);
      match r
      case Outside => result := Undefined;
      case Length(padding) =>
        result := if padding <= 0 || padding > 8 then BadText else Done(buffer[..|text| - padding]);
    } else {
      result := BadMode;
    }
  }

  method ReverseKeys(esk: Keys) returns (sk: Keys)
    ensures sk == Reversed(esk)
  {
    var a := new Word[32](_ => 0);
    var i := 0;
    while i < 32
      invariant 0 <= i <= 32 && i % 2 == 0
      invariant forall j :: 0 <= j < i ==> a[j] == Reversed(esk)[j]
    {
      a[i] := esk[30 - i];
      a[i + 1] := esk[31 - i];
      i := i + 2;
    }
    sk := a[..];
  }
}
