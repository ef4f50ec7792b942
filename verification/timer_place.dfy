/** Where the timing wheel keeps a timer: a function of its expiry and of the
    current 32-bit clock only, and how one tick changes it. */
module TimerPlace {
  const TIME_NEAR := 256         // 1 << TIME_NEAR_SHIFT
  const TIME_LEVEL := 64         // 1 << TIME_LEVEL_SHIFT
  const WORD := 0x1_0000_0000    // the clock is a uint32_t
  const HALF := 0x8000_0000      // a delay is a positive int

  type Word = w: nat | w < WORD

  /** A slot of the wheel: one tick of the current block, or one of four levels. */
  datatype Place = Near(idx: nat) | Level(level: nat, idx: nat)

  predicate ValidPlace(p: Place) {
    match p
    case Near(idx) => idx < TIME_NEAR
    case Level(level, idx) => level < 4 && idx < TIME_LEVEL
  }

  /** `x | (m - 1)` for a power of two `m`. */
  function OrMask(x: nat, m: nat): nat
    requires m > 0
  {
    x - x % m + (m - 1)
  }

  /** The span of clock values that one slot of a level covers. */
  function Span(level: nat): nat
    requires level < 4
  {
    match level
    case 0 => 0x100
    case 1 => 0x4000
    case 2 => 0x10_0000
    case 3 => 0x400_0000
  }

  function PlaceOf(expire: Word, now: Word): (p: Place)
    ensures ValidPlace(p)
  {
    if expire / 0x100 == now / 0x100 then Near(expire % 0x100)
    else if expire / 0x4000 == now / 0x4000 then Level(0, expire / 0x100 % TIME_LEVEL)
    else if expire / 0x10_0000 == now / 0x10_0000 then Level(1, expire / 0x4000 % TIME_LEVEL)
    else if expire / 0x400_0000 == now / 0x400_0000 then Level(2, expire / 0x10_0000 % TIME_LEVEL)
    else Level(3, expire / 0x400_0000 % TIME_LEVEL)
  }

  /** Ticks from `now` until the 32-bit clock shows `expire`. */
  function Distance(expire: Word, now: Word): (d: Word) {
    if now <= expire then expire - now else expire + WORD - now
  }

  function Next(now: Word): Word {
    if now + 1 == WORD then 0 else now + 1
  }

  /** The slot that the tick to `ct` empties, if any. */
  datatype Cascade = NoCascade | Empties(level: nat, idx: nat)

  function CascadeAt(ct: Word): (c: Cascade)
    ensures c.Empties? ==> ValidPlace(Level(c.level, c.idx))
  {
    if ct == 0 then Empties(3, 0)
    else if ct % 0x100 != 0 then NoCascade
    else if ct / 0x100 % TIME_LEVEL != 0 then Empties(0, ct / 0x100 % TIME_LEVEL)
    else if ct / 0x4000 % TIME_LEVEL != 0 then Empties(1, ct / 0x4000 % TIME_LEVEL)
    else if ct / 0x10_0000 % TIME_LEVEL != 0 then Empties(2, ct / 0x10_0000 % TIME_LEVEL)
    else Empties(3, ct / 0x400_0000 % TIME_LEVEL)
  }

  /** Comparing two clocks under a mask compares their high bits. */
  lemma SameBlock(x: nat, y: nat, m: nat)
    requires m > 0
    ensures OrMask(x, m) == OrMask(y, m) <==> x / m == y / m
  {
    assert x - x % m == x / m * m && y - y % m == y / m * m;
    if OrMask(x, m) == OrMask(y, m) {
      assert x / m == (x / m * m) / m && y / m == (y / m * m) / m;
    }
  }

  /** Each level looks at six more high bits than the one below. */
  lemma Blocks(x: Word)
    ensures x / 0x4000 == x / 0x100 / TIME_LEVEL
    ensures x / 0x10_0000 == x / 0x4000 / TIME_LEVEL
    ensures x / 0x400_0000 == x / 0x10_0000 / TIME_LEVEL
    ensures x / 0x400_0000 < TIME_LEVEL
  {
  }

  /** A clock value at the start of a block of one level, and of no bigger block. */
  lemma NextSpan(ct: Word, level: nat)
    requires level < 3 && ct % Span(level) == 0 && ct / Span(level) % TIME_LEVEL == 0
    ensures ct % Span(level + 1) == 0 && ct / Span(level + 1) == ct / Span(level) / TIME_LEVEL
  {
    if level == 0 {
    } else if level == 1 {
    }
  }

  /** Only at zero does the clock start a block of every level. */
  lemma TopSpan(ct: Word)
    requires 0 < ct && ct % Span(3) == 0
    ensures ct / Span(3) % TIME_LEVEL != 0
  {
  }

  /** A pending timer in the same block as the clock lies ahead of it, so the
      block is not over yet. */
  lemma BlockNotOver(expire: Word, now: Word, m: nat)
    requires 0 < Distance(expire, now) < HALF
    requires 0 < m <= 0x400_0000 && expire / m == now / m
    ensures now < expire && (now + 1) / m == now / m
  {
    assert expire - expire % m == now - now % m;
    BlockInterval(now + 1, expire, now, m);
  }

  lemma BlockInterval(x: nat, hi: nat, lo: nat, m: nat)
    requires m > 0 && lo <= x <= hi && hi / m == lo / m
    ensures x / m == lo / m
  {
    DivMonotone(lo, x, m);
    DivMonotone(x, hi, m);
  }

  lemma MulMonotone(a: nat, b: nat, m: nat)
    requires a <= b
    ensures a * m <= b * m
  {
  }

  lemma DivMonotone(x: nat, y: nat, m: nat)
    requires m > 0 && x <= y
    ensures x / m <= y / m
  {
    var q, r := x / m, y / m;
    assert x >= q * m && y < r * m + m;
    if r < q {
      MulMonotone(r + 1, q, m);
      assert false;
    }
  }

  /** At the end of a block, the blocks of the next tick. */
  lemma NextBlocks(now: Word)
    requires now + 1 < WORD
    ensures var ct := now + 1;
            && ct / 0x100 == now / 0x100 + (if ct % 0x100 == 0 then 1 else 0)
            && ct / 0x4000 == now / 0x4000 + (if ct % 0x100 == 0 && ct / 0x100 % TIME_LEVEL == 0 then 1 else 0)
            && ct / 0x10_0000 == now / 0x10_0000
                 + (if ct % 0x100 == 0 && ct / 0x100 % TIME_LEVEL == 0 && ct / 0x4000 % TIME_LEVEL == 0 then 1 else 0)
            && ct / 0x400_0000 == now / 0x400_0000
                 + (if ct % 0x100 == 0 && ct / 0x100 % TIME_LEVEL == 0 && ct / 0x4000 % TIME_LEVEL == 0
                       && ct / 0x10_0000 % TIME_LEVEL == 0 then 1 else 0)
  {
    Blocks(now);
    Blocks(now + 1);
  }

  /** The block numbers of a clock value, finest first. */
  datatype Digits = Digits(b0: nat, b1: nat, b2: nat, b3: nat) {
    predicate Nested() {
      b1 == b0 / TIME_LEVEL && b2 == b1 / TIME_LEVEL && b3 == b2 / TIME_LEVEL && b3 < TIME_LEVEL
    }
  }

  function DigitsOf(x: Word): (d: Digits)
    ensures d.Nested()
  {
    Blocks(x);
    Digits(x / 0x100, x / 0x4000, x / 0x10_0000, x / 0x400_0000)
  }

  function LevelOf(e: Digits, c: Digits): Place {
    if e.b1 == c.b1 then Level(0, e.b0 % TIME_LEVEL)
    else if e.b2 == c.b2 then Level(1, e.b1 % TIME_LEVEL)
    else if e.b3 == c.b3 then Level(2, e.b2 % TIME_LEVEL)
    else Level(3, e.b3 % TIME_LEVEL)
  }

  /** The next block numbers when the tick ends a block of the finest kind. */
  function CascadeOf(n: Digits): Place {
    if n.b0 % TIME_LEVEL != 0 then Level(0, n.b0 % TIME_LEVEL)
    else if n.b1 % TIME_LEVEL != 0 then Level(1, n.b1 % TIME_LEVEL)
    else if n.b2 % TIME_LEVEL != 0 then Level(2, n.b2 % TIME_LEVEL)
    else Level(3, n.b3 % TIME_LEVEL)
  }

  /** Entering the next block of the finest kind: who stays on its level. */
  lemma CarryMovesOnlyCascade(e: Digits, c: Digits, n: Digits)
    requires e.Nested() && c.Nested() && n.Nested() && n.b0 == c.b0 + 1
    requires e.b0 != c.b0 && (e.b1 == c.b1 ==> n.b1 == c.b1) && (e.b2 == c.b2 ==> n.b2 == c.b2)
    requires e.b3 == c.b3 ==> n.b3 == c.b3
    ensures LevelOf(e, c) == CascadeOf(n) ==> e.b0 == n.b0 || LevelOf(e, n) != CascadeOf(n)
    ensures LevelOf(e, c) != CascadeOf(n) ==> e.b0 != n.b0 && LevelOf(e, n) == LevelOf(e, c)
  {
    if n.b1 == c.b1 {
      assert n.b0 % TIME_LEVEL != 0;
    } else if n.b2 == c.b2 {
      assert n.b0 % TIME_LEVEL == 0 && n.b1 == c.b1 + 1 && n.b1 % TIME_LEVEL != 0;
    } else if n.b3 == c.b3 {
      assert n.b0 % TIME_LEVEL == 0 && n.b1 % TIME_LEVEL == 0 && n.b2 == c.b2 + 1 && n.b2 % TIME_LEVEL != 0;
    } else {
      assert n.b0 % TIME_LEVEL == 0 && n.b1 % TIME_LEVEL == 0 && n.b2 % TIME_LEVEL == 0;
    }
  }

  /** The central fact about one tick: a pending timer stays where it is, unless
      it lies in the slot that this tick empties, and then it leaves that slot. */
  lemma TickMovesOnlyCascade(expire: Word, now: Word)
    requires 0 < Distance(expire, now) < HALF
    ensures var p := PlaceOf(expire, now);
            var c := CascadeAt(Next(now));
            if c.Empties? && p == Level(c.level, c.idx) then PlaceOf(expire, Next(now)) != p
            else PlaceOf(expire, Next(now)) == p
  {
    if now + 1 == WORD {
      TickAtWrap(expire, now);
    } else if (now + 1) % 0x100 != 0 {
      NextBlocks(now);
    } else {
      TickEndsBlock(expire, now);
    }
  }

  lemma TickAtWrap(expire: Word, now: Word)
    requires 0 < Distance(expire, now) < HALF && now + 1 == WORD
    ensures PlaceOf(expire, now) == Level(3, expire / 0x400_0000)
    ensures PlaceOf(expire, 0) == PlaceOf(expire, now) <==> PlaceOf(expire, now) != Level(3, 0)
  {
    assert expire < HALF;
    Blocks(expire);
  }

  lemma TickEndsBlock(expire: Word, now: Word)
    requires 0 < Distance(expire, now) < HALF && now + 1 < WORD && (now + 1) % 0x100 == 0
    ensures var p := PlaceOf(expire, now);
            var c := CascadeAt(now + 1);
            if c.Empties? && p == Level(c.level, c.idx) then PlaceOf(expire, now + 1) != p
            else PlaceOf(expire, now + 1) == p
  {
    var e, c, n := DigitsOf(expire), DigitsOf(now), DigitsOf(now + 1);
    NextBlocks(now);
    if e.b0 == c.b0 { BlockNotOver(expire, now, 0x100); }
    if e.b1 == c.b1 { BlockNotOver(expire, now, 0x4000); }
    if e.b2 == c.b2 { BlockNotOver(expire, now, 0x10_0000); }
    if e.b3 == c.b3 { BlockNotOver(expire, now, 0x400_0000); }
    CarryMovesOnlyCascade(e, c, n);
    PlaceByDigits(expire, now);
    PlaceByDigits(expire, now + 1);
    CascadeByDigits(now + 1);
  }

  lemma PlaceByDigits(expire: Word, now: Word)
    ensures var e, c := DigitsOf(expire), DigitsOf(now);
            PlaceOf(expire, now) == if e.b0 == c.b0 then Near(expire % 0x100) else LevelOf(e, c)
  {
  }

  lemma CascadeByDigits(ct: Word)
    requires ct != 0 && ct % 0x100 == 0
    ensures var c := CascadeAt(ct); c.Empties? && Level(c.level, c.idx) == CascadeOf(DigitsOf(ct))
  {
  }

  /** A timer is in the slot of the current tick exactly when it expires now. */
  lemma NearIsNow(expire: Word, now: Word)
    ensures PlaceOf(expire, now) == Near(now % 0x100) <==> expire == now
  {
  }
}
