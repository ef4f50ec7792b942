/** SHA-1 as the program computes it: a block of sixteen words that is its own
    schedule, registers that are renamed instead of moved, and a context that
    takes the message in pieces. */
module Sha1Code {
  import opened CryptoWords
  import opened Sha1Spec

  // ------------------------------------------------------------ one block

  /** A word as a little-endian machine reads it. */
  function Little(a: Byte, b: Byte, c: Byte, d: Byte): Word {
    (a as Word) | ((b as Word) << 8) | ((c as Word) << 16) | ((d as Word) << 24)
  }

  function Rol24(w: Word): Word { (w << 24) | (w >> 8) }

  function Rol8(w: Word): Word { (w << 8) | (w >> 24) }

  /** blk0: the bytes of a word in the opposite order. */
  function Swap(w: Word): Word { (Rol24(w) & 0xFF00FF00) | (Rol8(w) & 0x00FF00FF) }

  lemma {:induction false} SwapLittle(a: Byte, b: Byte, c: Byte, d: Byte)
    ensures Swap(Little(a, b, c, d)) == GetWord(a, b, c, d)
  {
  }

  // The logical functions as the program writes them.

  function CodeChoose(w: Word, x: Word, y: Word): Word { (w & (x ^ y)) ^ y }

  function CodeMajority(w: Word, x: Word, y: Word): Word { ((w | x) & y) | (w & x) }

  function CodeF(t: nat, w: Word, x: Word, y: Word): Word {
    if t < 20 then CodeChoose(w, x, y)
    else if t < 40 then Parity(w, x, y)
    else if t < 60 then CodeMajority(w, x, y)
    else Parity(w, x, y)
  }

  lemma {:induction false} ChooseBits(w: Word, x: Word, y: Word)
    ensures (w & (x ^ y)) ^ y == (w & x) | (!w & y)
  {
  }

  lemma {:induction false} ChooseIs(w: Word, x: Word, y: Word)
    ensures CodeChoose(w, x, y) == Choose(w, x, y)
  {
    ChooseBits(w, x, y);
  }

  lemma {:induction false} MajorityBits(w: Word, x: Word, y: Word)
    ensures ((w | x) & y) | (w & x) == (w & x) | (w & y) | (x & y)
  {
  }

  lemma {:induction false} MajorityIs(w: Word, x: Word, y: Word)
    ensures CodeMajority(w, x, y) == Majority(w, x, y)
  {
    MajorityBits(w, x, y);
  }

  lemma {:induction false} CodeFIs(t: nat, w: Word, x: Word, y: Word)
    ensures CodeF(t, w, x, y) == F(t, w, x, y)
  {
    hide Choose, Majority, Parity, CodeChoose, CodeMajority;
    if t < 20 {
      ChooseIs(w, x, y);
    } else if 40 <= t < 60 {
      MajorityIs(w, x, y);
    }
  }

  /** The sums of one round, in the order of either form. */
  function CodeSum(z: Word, f: Word, w: Word, k: Word, v: Word): Word { z + (f + w + k + v) }

  lemma {:induction false} SumsAgree(z: Word, f: Word, w: Word, k: Word, v: Word)
    ensures CodeSum(z, f, w, k, v) == Sum(v, f, z, w, k)
  {
  }

  ghost predicate Scheduled(block: seq<Word>, b: Block, t: nat) {
    && |block| == 16
    && (forall s :: 0 <= s < t && t <= s + 16 ==> block[s % 16] == W(b, s))
    && (forall s :: t <= s < 16 ==> block[s] == Little(b[4 * s], b[4 * s + 1], b[4 * s + 2], b[4 * s + 3]))
  }

  /** blk0 and blk: word `t`, which replaces word `t - 16`. */
  method Next(block: array<Word>, t: nat, ghost b: Block) returns (w: Word)
    requires block.Length == 16 && t < 80 && Scheduled(block[..], b, t)
    modifies block
    ensures w == W(b, t) && Scheduled(block[..], b, t + 1)
  {
    ghost var before := block[..];
    if t < 16 {
      w := Swap(block[t]);
      SwapLittle(b[4 * t], b[4 * t + 1], b[4 * t + 2], b[4 * t + 3]);
      block[t] := w;
    } else {
      Places(t);
      w := Rol1(block[(t + 13) % 16] ^ block[(t + 8) % 16] ^ block[(t + 2) % 16] ^ block[t % 16]);
      block[t % 16] := w;
    }
    StillScheduled(before, b, t);
  }

  lemma {:induction false} Places(t: nat)
    requires t >= 16
    ensures (t + 13) % 16 == (t - 3) % 16 && (t + 8) % 16 == (t - 8) % 16
    ensures (t + 2) % 16 == (t - 14) % 16 && t % 16 == (t - 16) % 16
  {
  }

  lemma {:induction false} StillScheduled(block: seq<Word>, b: Block, t: nat)
    requires Scheduled(block, b, t)
    ensures Scheduled(block[t % 16 := W(b, t)], b, t + 1)
  {
    hide W, Little;
    var after := block[t % 16 := W(b, t)];
    forall s | 0 <= s < t + 1 && t + 1 <= s + 16 ensures after[s % 16] == W(b, s) {
      if s < t { Apart(s, t); }
    }
    forall s | t + 1 <= s < 16
      ensures after[s] == Little(b[4 * s], b[4 * s + 1], b[4 * s + 2], b[4 * s + 3])
    {
      assert t % 16 == t;
    }
  }

  lemma {:induction false} Apart(s: nat, t: nat)
    requires s < t < s + 16
    ensures s % 16 != t % 16
  {
  }

  /** The register that plays role `k` in round `t`. */
  function Role(k: nat, t: nat): (i: nat)
    requires k < 5
    ensures i < 5
  {
    if k >= t % 5 then k - t % 5 else k + 5 - t % 5
  }

  ghost predicate Play(regs: seq<Word>, t: nat, r: Five) {
    && |regs| == 5
    && regs[Role(0, t)] == r.a && regs[Role(1, t)] == r.b && regs[Role(2, t)] == r.c
    && regs[Role(3, t)] == r.d && regs[Role(4, t)] == r.e
  }

  /** After a round everyone plays the next role. */
  lemma {:induction false} RolesMove(t: nat)
    ensures Role(0, t + 1) == Role(4, t) && Role(1, t + 1) == Role(0, t) && Role(2, t + 1) == Role(1, t)
    ensures Role(3, t + 1) == Role(2, t) && Role(4, t + 1) == Role(3, t)
    ensures Role(1, t) != Role(4, t) && Role(0, t) != Role(4, t) && Role(0, t) != Role(1, t)
    ensures Role(2, t) != Role(4, t) && Role(3, t) != Role(4, t) && Role(2, t) != Role(1, t) && Role(3, t) != Role(1, t)
  {
    assert (t + 1) % 5 == if t % 5 == 4 then 0 else t % 5 + 1;
  }

  /** R0 to R4: one register is added to, and one is rotated. */
  method Step(regs: array<Word>, t: nat, w: Word, ghost r: Five)
    requires regs.Length == 5 && Play(regs[..], t, r)
    modifies regs
    ensures Play(regs[..], t + 1, Round(t, w, r))
  {
    hide Rol5, Rol30, K, F, CodeF, Role, Sum, CodeSum;
    RolesMove(t);
    var f := CodeF(t, regs[Role(1, t)], regs[Role(2, t)], regs[Role(3, t)]);
    var z := CodeSum(regs[Role(4, t)], f, w, K(t), Rol5(regs[Role(0, t)]));
    CodeFIs(t, r.b, r.c, r.d);
    SumsAgree(r.e, f, w, K(t), Rol5(r.a));
    regs[Role(4, t)] := z;
    regs[Role(1, t)] := Rol30(regs[Role(1, t)]);
  }

  lemma {:induction false} RoundsNext(h: Five, b: Block, t: nat)
    ensures Rounds(h, b, t + 1) == Round(t, W(b, t), Rounds(h, b, t))
  {
    hide W, Round;
  }

  lemma {:induction false} PlayAtStart(regs: seq<Word>, h: Five, b: Block)
    requires regs == [h.a, h.b, h.c, h.d, h.e]
    ensures Play(regs, 0, Rounds(h, b, 0))
  {
    hide Round;
  }

  lemma {:induction false} PlayAtEnd(regs: seq<Word>, r: Five)
    requires Play(regs, 80, r)
    ensures r == Five(regs[0], regs[1], regs[2], regs[3], regs[4])
  {
  }

  method AllRounds(block: array<Word>, regs: array<Word>, ghost h: Five, ghost b: Block)
    requires block.Length == 16 && regs.Length == 5
    requires Scheduled(block[..], b, 0) && Play(regs[..], 0, Rounds(h, b, 0)) && block != regs
    modifies block, regs
    ensures Play(regs[..], 80, Rounds(h, b, 80))
  {
    hide W, Round, Rounds, Little;
    for t := 0 to 80
      invariant Scheduled(block[..], b, t) && Play(regs[..], t, Rounds(h, b, t))
    {
      RoundsNext(h, b, t);
      var w := Next(block, t, b);
      Step(regs, t, w, Rounds(h, b, t));
    }
  }

  /** SHA1_Transform */
  method Transform(h: Five, b: Block) returns (r: Five)
    ensures r == Compress(h, b)
  {
    hide W, Round, Rounds, Little, AddFive;
    var block := new Word[16](i requires 0 <= i < 16 => Little(b[4 * i], b[4 * i + 1], b[4 * i + 2], b[4 * i + 3]));
    var regs := new Word[5](_ => 0);
    regs[0], regs[1], regs[2], regs[3], regs[4] := h.a, h.b, h.c, h.d, h.e;
    PlayAtStart(regs[..], h, b);
    AllRounds(block, regs, h, b);
    PlayAtEnd(regs[..], Rounds(h, b, 80));
    r := AddFive(h, Five(regs[0], regs[1], regs[2], regs[3], regs[4]));
  }
}
