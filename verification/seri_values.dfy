/** The byte form of Lua values in lua-seri.c, and back. */
module SeriValues {
  import opened Arithmetic
  import opened Octets

  /** Numbers with a fraction and pointers are their eight bytes; `Other` stands for the
      kinds that cannot be packed. */
  datatype Value =
    | Nil
    | Bool(b: bool)
    | Int(n: int)
    | Real(bits: Bytes)
    | Pointer(bits: Bytes)
    | Str(s: Bytes)
    | Table(items: seq<Value>, pairs: seq<Pair>)
    | Other

  datatype Pair = Pair(key: Value, value: Value)

  /** Not a number, in the eight bytes of a double. */
  predicate IsNaN(v: Value) {
    v.Real? && |v.bits| == 8 && v.bits[7] % 128 == 127 && v.bits[6] >= 240
    && !(v.bits[6] == 240 && forall i :: 0 <= i < 6 ==> v.bits[i] == 0)
  }

  const MAX_COOKIE := 32
  const MAX_DEPTH := 32

  const NIL := 0
  const BOOLEAN := 1
  const NUMBER := 2
  const USERDATA := 3
  const SHORT_STRING := 4
  const LONG_STRING := 5
  const TABLE := 6

  const ZERO := 0
  const BYTE := 1
  const WORD := 2
  const DWORD := 4
  const QWORD := 6
  const REAL := 8

  const INT_MAX := 0x7fff_ffff

  /** COMBINE_TYPE */
  function Tag(kind: nat, cookie: nat): Byte
    requires kind < 8 && cookie < 32
  {
    cookie * 8 + kind
  }

  function Pow256(k: nat): (p: int)
    ensures p > 0
  {
    if k == 0 then 1 else 256 * Pow256(k - 1)
  }

  /** The last `k` bytes of a number, low byte first; a negative number in two's complement. */
  function Le(n: int, k: nat): (s: Bytes)
    ensures |s| == k
    decreases k
  {
    if k == 0 then [] else [n % 256] + Le(n / 256, k - 1)
  }

  /** The number that bytes stand for, without a sign. */
  function UnLe(s: Bytes): (n: nat)
    ensures n < Pow256(|s|)
  {
    if s == [] then 0 else s[0] as int + 256 * UnLe(s[1..])
  }

  /** The same with a sign. */
  function Signed(s: Bytes): int {
    if 2 * UnLe(s) >= Pow256(|s|) then UnLe(s) - Pow256(|s|) else UnLe(s)
  }

  // ---------------------------------------------------------------- packing

  /** wb_integer */
  function IntBytes(v: int): (s: Bytes)
    ensures s != []
  {
    if v == 0 then [Tag(NUMBER, ZERO)]
    else if v < -0x8000_0000 || v > INT_MAX then [Tag(NUMBER, QWORD)] + Le(v, 8)
    else if v < 0 then [Tag(NUMBER, DWORD)] + Le(v, 4)
    else if v < 0x100 then [Tag(NUMBER, BYTE)] + Le(v, 1)
    else if v < 0x10000 then [Tag(NUMBER, WORD)] + Le(v, 2)
    else [Tag(NUMBER, DWORD)] + Le(v, 4)
  }

  /** wb_string */
  function StrBytes(s: Bytes): (r: Bytes)
    ensures r != []
  {
    if |s| < MAX_COOKIE then [Tag(SHORT_STRING, |s|)] + s
    else if |s| < 0x10000 then [Tag(LONG_STRING, 2)] + Le(|s|, 2) + s
    else [Tag(LONG_STRING, 4)] + Le(|s|, 4) + s
  }

  /** The start of a table: the size of its array part. */
  function ArrayHead(n: nat): (s: Bytes)
    ensures s != []
  {
    if n >= MAX_COOKIE - 1 then [Tag(TABLE, MAX_COOKIE - 1)] + IntBytes(n) else [Tag(TABLE, n)]
  }

  /** pack_one, without the limit of depth. */
  function Encode(v: Value): Bytes
    decreases v
  {
    match v
    case Nil => [Tag(NIL, 0)]
    case Bool(b) => [Tag(BOOLEAN, if b then 1 else 0)]
    case Int(n) => IntBytes(n)
    case Real(bits) => [Tag(NUMBER, REAL)] + bits
    case Pointer(bits) => [Tag(USERDATA, 0)] + bits
    case Str(s) => StrBytes(s)
    case Table(items, pairs) => ArrayHead(|items|) + ArrayFrom(v, 0) + HashFrom(v, 0)
    case Other => []
  }

  /** The array part of a table from element `i` on. */
  function ArrayFrom(v: Value, i: nat): Bytes
    requires v.Table? && i <= |v.items|
    decreases v, |v.items| - i
  {
    if i == |v.items| then [] else Encode(v.items[i]) + ArrayFrom(v, i + 1)
  }

  /** The hash part of a table from pair `i` on, with its end mark. */
  function HashFrom(v: Value, i: nat): Bytes
    requires v.Table? && i <= |v.pairs|
    decreases v, |v.pairs| - i
  {
    if i == |v.pairs| then [Tag(NIL, 0)]
    else Encode(v.pairs[i].key) + Encode(v.pairs[i].value) + HashFrom(v, i + 1)
  }

  /** Can a table have this key? */
  predicate IsKey(v: Value) { !v.Nil? && !IsNaN(v) }

  /** All values that Lua hands over: 64-bit integers, lengths that an `int` holds, and no
      nil and no NaN among the keys. */
  predicate Fits(v: Value)
    decreases v
  {
    match v
    case Int(n) => -0x8000_0000_0000_0000 <= n < 0x8000_0000_0000_0000
    case Real(bits) => |bits| == 8
    case Pointer(bits) => |bits| == 8
    case Str(s) => |s| <= INT_MAX
    case Table(items, pairs) =>
      && |items| <= INT_MAX
      && (forall i :: 0 <= i < |items| ==> Fits(items[i]))
      && (forall i :: 0 <= i < |pairs| ==> Fits(pairs[i].key) && Fits(pairs[i].value) && IsKey(pairs[i].key))
    case _ => true
  }

  /** Can a value be packed at this depth? */
  predicate Packable(v: Value, depth: nat)
    decreases v
  {
    && depth <= MAX_DEPTH && !v.Other?
    && (v.Table? ==> (forall i :: 0 <= i < |v.items| ==> Packable(v.items[i], depth + 1)))
    && (v.Table? ==> (forall i :: 0 <= i < |v.pairs| ==>
          Packable(v.pairs[i].key, depth + 1) && Packable(v.pairs[i].value, depth + 1)))
  }

  // -------------------------------------------------------------- unpacking

  datatype Got<T> = Bad | Got(value: T, rest: Bytes)

  /** rb_read */
  function Take(s: Bytes, n: nat): (r: Got<Bytes>)
    ensures r.Got? <==> n <= |s|
    ensures r.Got? ==> |r.value| == n && s == r.value + r.rest
  {
    if |s| < n then Bad else Got(s[..n], s[n..])
  }

  /** get_integer */
  function GetInteger(s: Bytes, cookie: nat): (r: Got<int>)
    ensures r.Got? ==> |r.rest| <= |s|
  {
    if cookie == ZERO then Got(0, s)
    else if cookie == BYTE then (if Take(s, 1).Bad? then Bad else Got(UnLe(Take(s, 1).value), Take(s, 1).rest))
    else if cookie == WORD then (if Take(s, 2).Bad? then Bad else Got(UnLe(Take(s, 2).value), Take(s, 2).rest))
    else if cookie == DWORD then (if Take(s, 4).Bad? then Bad else Got(Signed(Take(s, 4).value), Take(s, 4).rest))
    else if cookie == QWORD then (if Take(s, 8).Bad? then Bad else Got(Signed(Take(s, 8).value), Take(s, 8).rest))
    else Bad
  }

  /** A long string.  A length that is negative as an `int` passes rb_read, and is refused as
      too long when the string is made. */
  function GetLong(s: Bytes, cookie: nat): (r: Got<Bytes>)
    ensures r.Got? ==> |r.rest| <= |s|
  {
    if cookie != 2 && cookie != 4 then Bad
    else
      var n := Take(s, cookie);
      if n.Bad? || UnLe(n.value) > INT_MAX then Bad else Take(n.rest, UnLe(n.value))
  }

  /** An integer that becomes an `int`. */
  function ToInt(n: int): int {
    if n % 0x1_0000_0000 < 0x8000_0000 then n % 0x1_0000_0000 else n % 0x1_0000_0000 - 0x1_0000_0000
  }

  /** The size of the array part. */
  function GetSize(s: Bytes, cookie: nat): (r: Got<int>)
    ensures r.Got? ==> |r.rest| <= |s|
  {
    if cookie != MAX_COOKIE - 1 then Got(cookie, s)
    else if s == [] || s[0] % 8 != NUMBER || s[0] / 8 == REAL then Bad
    else
      var n := GetInteger(s[1..], s[0] / 8);
      if n.Bad? then Bad else Got(ToInt(n.value), n.rest)
  }

  /** unpack_one */
  function Decode(s: Bytes): (r: Got<Value>)
    ensures r.Got? ==> |r.rest| < |s|
    decreases |s|, 0
  {
    if s == [] then Bad else DecodeAs(s[1..], s[0] % 8, s[0] / 8)
  }

  /** push_value */
  function DecodeAs(s: Bytes, kind: nat, cookie: nat): (r: Got<Value>)
    ensures r.Got? ==> |r.rest| <= |s|
    decreases |s|, 3
  {
    if kind == NIL then Got(Nil, s)
    else if kind == BOOLEAN then Got(Bool(cookie != 0), s)
    else if kind == NUMBER && cookie == REAL then
      (if Take(s, 8).Bad? then Bad else Got(Real(Take(s, 8).value), Take(s, 8).rest))
    else if kind == NUMBER then
      var n := GetInteger(s, cookie);
      if n.Bad? then Bad else Got(Int(n.value), n.rest)
    else if kind == USERDATA then
      (if Take(s, 8).Bad? then Bad else Got(Pointer(Take(s, 8).value), Take(s, 8).rest))
    else if kind == SHORT_STRING then
      (if Take(s, cookie).Bad? then Bad else Got(Str(Take(s, cookie).value), Take(s, cookie).rest))
    else if kind == LONG_STRING then
      (if GetLong(s, cookie).Bad? then Bad else Got(Str(GetLong(s, cookie).value), GetLong(s, cookie).rest))
    else if kind == TABLE then DecodeTable(s, cookie)
    else Bad
  }

  /** unpack_table */
  function DecodeTable(s: Bytes, cookie: nat): (r: Got<Value>)
    ensures r.Got? ==> |r.rest| <= |s|
    decreases |s|, 2
  {
    var size := GetSize(s, cookie);
    if size.Bad? then Bad
    else
      var items := DecodeArray(size.rest, size.value);
      if items.Bad? then Bad
      else
        var pairs := DecodeHash(items.rest);
        if pairs.Bad? then Bad else Got(Table(items.value, pairs.value), pairs.rest)
  }

  function DecodeArray(s: Bytes, n: int): (r: Got<seq<Value>>)
    ensures r.Got? ==> |r.rest| <= |s|
    decreases |s|, 1
  {
    if n <= 0 then Got([], s)
    else
      var first := Decode(s);
      if first.Bad? then Bad
      else
        var others := DecodeArray(first.rest, n - 1);
        if others.Bad? then Bad else Got([first.value] + others.value, others.rest)
  }

  /** Keys and values up to a nil key; NaN is refused as a key. */
  function DecodeHash(s: Bytes): (r: Got<seq<Pair>>)
    ensures r.Got? ==> |r.rest| <= |s|
    decreases |s|, 1
  {
    var key := Decode(s);
    if key.Bad? then Bad
    else if key.value.Nil? then Got([], key.rest)
    else
      var value := Decode(key.rest);
      if value.Bad? || !IsKey(key.value) then Bad
      else
        var others := DecodeHash(value.rest);
        if others.Bad? then Bad else Got([Pair(key.value, value.value)] + others.value, others.rest)
  }

  // ------------------------------------------------------------- round trip

  lemma {:induction false} DivStep(n: int, p: int)
    requires p > 0
    ensures n % (256 * p) == n % 256 + 256 * ((n / 256) % p)
  {
    var q, r := n / 256 / p, (n / 256) % p;
    assert n / 256 == q * p + r;
    assert n == q * (256 * p) + (256 * r + n % 256);
    RemainderIs(n, 256 * p, q, 256 * r + n % 256);
  }

  lemma {:induction false} LeUnLe(n: int, k: nat)
    ensures UnLe(Le(n, k)) == n % Pow256(k)
    decreases k
  {
    if k > 0 {
      LeUnLe(n / 256, k - 1);
      DivStep(n, Pow256(k - 1));
      assert Le(n, k)[1..] == Le(n / 256, k - 1);
    }
  }

  /** A number comes back from `k` bytes when they have room for it. */
  lemma {:induction false} LeBack(n: int, k: nat)
    ensures 0 <= n < Pow256(k) ==> UnLe(Le(n, k)) == n
    ensures -Pow256(k) <= 2 * n < Pow256(k) ==> Signed(Le(n, k)) == n
  {
    LeUnLe(n, k);
    var p := Pow256(k);
    if 0 <= n < p { RemainderIs(n, p, 0, n); }
    if -p <= n < 0 { RemainderIs(n, p, -1, n + p); }
  }

  lemma {:induction false} Powers()
    ensures Pow256(1) == 0x100 && Pow256(2) == 0x10000 && Pow256(4) == 0x1_0000_0000
    ensures Pow256(8) == 0x1_0000_0000_0000_0000
  {
    assert Pow256(3) == 0x100_0000;
    assert Pow256(5) == 0x100_0000_0000 && Pow256(6) == 0x1_0000_0000_0000;
    assert Pow256(7) == 0x100_0000_0000_0000;
  }

  lemma {:induction false} TakeFront(a: Bytes, b: Bytes)
    ensures Take(a + b, |a|) == Got(a, b)
  {
    assert (a + b)[..|a|] == a && (a + b)[|a|..] == b;
  }

  lemma {:induction false} IntBack(n: int, rest: Bytes)
    requires -0x8000_0000_0000_0000 <= n < 0x8000_0000_0000_0000
    ensures var s := IntBytes(n) + rest;
            s[0] % 8 == NUMBER && s[0] / 8 != REAL && GetInteger(s[1..], s[0] / 8) == Got(n, rest)
  {
    hide Le, UnLe, Signed, Pow256, Take;
    Powers();
    var s := IntBytes(n) + rest;
    if n == 0 {
      assert s[1..] == rest;
    } else {
      var k := if n < -0x8000_0000 || n > INT_MAX then 8 else if n < 0 || n >= 0x10000 then 4
               else if n < 0x100 then 1 else 2;
      assert s[1..] == Le(n, k) + rest;
      LeBack(n, k);
      TakeFront(Le(n, k), rest);
    }
  }

  /** Opening one value: its first byte, and what follows. */
  lemma {:induction false} Opens(head: Byte, body: Bytes)
    ensures Decode([head] + body) == DecodeAs(body, head % 8, head / 8)
  {
    assert ([head] + body)[1..] == body;
    hide DecodeAs;
  }

  lemma {:induction false} StrBack(s: Bytes, rest: Bytes)
    requires |s| <= INT_MAX
    ensures Decode(StrBytes(s) + rest) == Got(Str(s), rest)
  {
    hide Decode, Le, GetLong, DecodeAs;
    if |s| < MAX_COOKIE {
      AsShort(s, rest);
      assert StrBytes(s) + rest == [Tag(SHORT_STRING, |s|)] + (s + rest);
    } else {
      var k := if |s| < 0x10000 then 2 else 4;
      LongBack(s, k, rest);
      AsLong(s, Le(|s|, k) + (s + rest), k, rest);
      assert StrBytes(s) + rest == [Tag(LONG_STRING, k)] + (Le(|s|, k) + (s + rest));
    }
  }

  lemma {:induction false} AsShort(s: Bytes, rest: Bytes)
    requires |s| < MAX_COOKIE
    ensures Decode([Tag(SHORT_STRING, |s|)] + (s + rest)) == Got(Str(s), rest)
  {
    Opens(Tag(SHORT_STRING, |s|), s + rest);
    TakeFront(s, rest);
    hide Decode;
  }

  lemma {:induction false} AsLong(s: Bytes, body: Bytes, k: nat, rest: Bytes)
    requires k < 32 && GetLong(body, k) == Got(s, rest)
    ensures Decode([Tag(LONG_STRING, k)] + body) == Got(Str(s), rest)
  {
    Opens(Tag(LONG_STRING, k), body);
    hide Decode, GetLong;
  }

  lemma {:induction false} LongBack(s: Bytes, k: nat, rest: Bytes)
    requires (k == 2 && |s| < 0x10000) || (k == 4 && |s| <= INT_MAX)
    ensures GetLong(Le(|s|, k) + (s + rest), k) == Got(s, rest)
  {
    hide Le, UnLe, Pow256, Take;
    Powers();
    LeBack(|s|, k);
    TakeFront(Le(|s|, k), s + rest);
    TakeFront(s, rest);
  }

  lemma {:induction false} SizeBack(n: nat, rest: Bytes)
    requires n <= INT_MAX
    ensures var s := ArrayHead(n) + rest; s[0] % 8 == TABLE && GetSize(s[1..], s[0] / 8) == Got(n, rest)
  {
    hide IntBytes, GetInteger;
    var s := ArrayHead(n) + rest;
    if n >= MAX_COOKIE - 1 {
      assert s[1..] == IntBytes(n) + rest;
      IntBack(n, rest);
    } else {
      assert s[1..] == rest;
    }
  }

  lemma {:induction false} LeafBack(v: Value, rest: Bytes)
    requires Fits(v) && !v.Table? && !v.Other? && !v.Str?
    ensures Decode(Encode(v) + rest) == Got(v, rest)
  {
    var s := Encode(v) + rest;
    assert s[0] == Encode(v)[0];
    match v
    case Nil => assert s[1..] == rest;
    case Bool(b) => assert s[1..] == rest;
    case Int(n) => IntBack(n, rest);
    case Real(bits) => assert s[1..] == bits + rest; TakeFront(bits, rest);
    case Pointer(bits) => assert s[1..] == bits + rest; TakeFront(bits, rest);
    hide IntBytes, GetInteger, Take, Decode, Encode;
    assert DecodeAs(s[1..], s[0] % 8, s[0] / 8) == Got(v, rest);
    assert Decode(s) == DecodeAs(s[1..], s[0] % 8, s[0] / 8) by { Opens(s[0], s[1..]); assert s == [s[0]] + s[1..]; }
  }

  /** What is packed comes back, and what follows it is left. */
  lemma {:induction false} Back(v: Value, depth: nat, rest: Bytes)
    requires Fits(v) && Packable(v, depth)
    ensures Decode(Encode(v) + rest) == Got(v, rest)
    decreases v
  {
    match v
    case Str(x) => StrBack(x, rest);
    case Table(items, pairs) => TableBack(v, depth, rest);
    case _ => LeafBack(v, rest);
  }

  lemma {:induction false} TableBack(v: Value, depth: nat, rest: Bytes)
    requires v.Table? && Fits(v) && Packable(v, depth)
    ensures Decode(Encode(v) + rest) == Got(v, rest)
    decreases v, |v.items| + |v.pairs| + 1
  {
    var n := |v.items|;
    var tail := ArrayFrom(v, 0) + (HashFrom(v, 0) + rest);
    assert Encode(v) + rest == ArrayHead(n) + tail;
    ItemsBack(v, 0, depth, HashFrom(v, 0) + rest);
    PairsBack(v, 0, depth, rest);
    hide ArrayFrom, HashFrom, DecodeArray, DecodeHash, Encode, ArrayHead;
    HeadBack(v, tail, HashFrom(v, 0) + rest, rest);
  }

  lemma {:induction false} HeadBack(v: Value, tail: Bytes, after: Bytes, rest: Bytes)
    requires v.Table? && |v.items| <= INT_MAX
    requires DecodeArray(tail, |v.items|) == Got(v.items[0..], after) && DecodeHash(after) == Got(v.pairs[0..], rest)
    ensures Decode(ArrayHead(|v.items|) + tail) == Got(v, rest)
  {
    var s := ArrayHead(|v.items|) + tail;
    SizeBack(|v.items|, tail);
    Opens(s[0], s[1..]);
    assert s == [s[0]] + s[1..];
    hide GetSize, ArrayHead, DecodeArray, DecodeHash, Decode;
    assert v.items[0..] == v.items && v.pairs[0..] == v.pairs;
    assert DecodeTable(s[1..], s[0] / 8) == Got(v, rest);
    assert DecodeAs(s[1..], TABLE, s[0] / 8) == DecodeTable(s[1..], s[0] / 8);
  }

  lemma {:induction false} ItemsBack(v: Value, i: nat, depth: nat, rest: Bytes)
    requires v.Table? && Fits(v) && Packable(v, depth) && i <= |v.items|
    ensures DecodeArray(ArrayFrom(v, i) + rest, |v.items| - i) == Got(v.items[i..], rest)
    decreases v, |v.items| - i
  {
    hide Encode, Decode;
    if i == |v.items| {
      assert [] + rest == rest && v.items[i..] == [];
    } else {
      assert ArrayFrom(v, i) + rest == Encode(v.items[i]) + (ArrayFrom(v, i + 1) + rest);
      Back(v.items[i], depth + 1, ArrayFrom(v, i + 1) + rest);
      ItemsBack(v, i + 1, depth, rest);
      assert v.items[i..] == [v.items[i]] + v.items[i + 1..];
    }
  }

  lemma {:induction false} PairsBack(v: Value, i: nat, depth: nat, rest: Bytes)
    requires v.Table? && Fits(v) && Packable(v, depth) && i <= |v.pairs|
    ensures DecodeHash(HashFrom(v, i) + rest) == Got(v.pairs[i..], rest)
    decreases v, |v.pairs| - i
  {
    hide Encode, Decode, DecodeHash, HashFrom, Fits, Packable;
    if i == |v.pairs| {
      NoPairs(v, rest);
    } else {
      PairFits(v, i, depth);
      PairsBack(v, i + 1, depth, rest);
      var others := HashFrom(v, i + 1) + rest;
      Back(v.pairs[i].key, depth + 1, Encode(v.pairs[i].value) + others);
      Back(v.pairs[i].value, depth + 1, others);
      OnePair(v, i, rest, others);
    }
  }

  lemma {:induction false} NoPairs(v: Value, rest: Bytes)
    requires v.Table?
    ensures DecodeHash(HashFrom(v, |v.pairs|) + rest) == Got(v.pairs[|v.pairs|..], rest)
  {
    NilBack(rest);
    hide Decode;
    assert v.pairs[|v.pairs|..] == [];
  }

  lemma {:induction false} OnePair(v: Value, i: nat, rest: Bytes, others: Bytes)
    requires v.Table? && i < |v.pairs| && IsKey(v.pairs[i].key) && others == HashFrom(v, i + 1) + rest
    requires var s := Encode(v.pairs[i].value) + others;
             && Decode(Encode(v.pairs[i].key) + s) == Got(v.pairs[i].key, s)
             && Decode(s) == Got(v.pairs[i].value, others)
    requires DecodeHash(others) == Got(v.pairs[i + 1..], rest)
    ensures DecodeHash(HashFrom(v, i) + rest) == Got(v.pairs[i..], rest)
  {
    HashSplit(v, i, rest);
    hide Encode, Decode, HashFrom;
    assert v.pairs[i..] == [Pair(v.pairs[i].key, v.pairs[i].value)] + v.pairs[i + 1..];
  }

  lemma {:induction false} HashSplit(v: Value, i: nat, rest: Bytes)
    requires v.Table? && i < |v.pairs|
    ensures HashFrom(v, i) + rest
            == Encode(v.pairs[i].key) + (Encode(v.pairs[i].value) + (HashFrom(v, i + 1) + rest))
  {
    hide Encode;
  }

  lemma {:induction false} NilBack(rest: Bytes)
    ensures Decode([Tag(NIL, 0)] + rest) == Got(Nil, rest)
  {
    Opens(Tag(NIL, 0), rest);
  }

  lemma {:induction false} PairFits(v: Value, i: nat, depth: nat)
    requires v.Table? && Fits(v) && Packable(v, depth) && i < |v.pairs|
    ensures var p := v.pairs[i];
            && Fits(p.key) && Packable(p.key, depth + 1) && IsKey(p.key)
            && Fits(p.value) && Packable(p.value, depth + 1)
  {
  }
}
