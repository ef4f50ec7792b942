/** The packers and unpackers of lua-seri.c, against the byte form of values. */
module SeriCode {
  import opened Basics
  import opened Octets
  import opened SeriBlocks
  import opened SeriValues

  // ---------------------------------------------------------------- packing

  lemma {:induction false} Assoc<T>(a: seq<T>, b: seq<T>, c: seq<T>)
    ensures a + b + c == a + (b + c)
  {
  }

  /** The first byte of a number and its other bytes. */
  method PushNumber(wb: WriteBlock, cookie: nat, v: int, size: nat)
    requires wb.Valid() && cookie < 32
    modifies wb.Repr
    ensures wb.Valid() && fresh(wb.Repr - old(wb.Repr))
    ensures wb.contents == old(wb.contents) + ([Tag(NUMBER, cookie)] + Le(v, size))
  {
    hide WriteBlock.Valid, Le, Tag;
    Assoc(wb.contents, [Tag(NUMBER, cookie)], Le(v, size));
    wb.Push([Tag(NUMBER, cookie)]);
    wb.Push(Le(v, size));
  }

  lemma {:induction false} PairAssoc<T>(a: seq<T>, b: seq<T>, c: seq<T>, d: seq<T>)
    ensures a + b + c + d == a + (b + c + d)
  {
  }

  /** wb_integer */
  method PackInteger(wb: WriteBlock, v: int)
    requires wb.Valid()
    modifies wb.Repr
    ensures wb.Valid() && fresh(wb.Repr - old(wb.Repr)) && wb.contents == old(wb.contents) + IntBytes(v)
  {
    hide WriteBlock.Valid, Le;
    if v == 0 {
      wb.Push([Tag(NUMBER, ZERO)]);
    } else if v != ToInt(v) {
      PushNumber(wb, QWORD, v, 8);
    } else if v < 0 {
      PushNumber(wb, DWORD, v, 4);
    } else if v < 0x100 {
      PushNumber(wb, BYTE, v, 1);
    } else if v < 0x10000 {
      PushNumber(wb, WORD, v, 2);
    } else {
      PushNumber(wb, DWORD, v, 4);
    }
  }

  /** wb_string */
  method PackString(wb: WriteBlock, s: Bytes)
    requires wb.Valid()
    modifies wb.Repr
    ensures wb.Valid() && fresh(wb.Repr - old(wb.Repr)) && wb.contents == old(wb.contents) + StrBytes(s)
  {
    hide WriteBlock.Valid, Le;
    if |s| < MAX_COOKIE {
      Assoc(wb.contents, [Tag(SHORT_STRING, |s|)], s);
      wb.Push([Tag(SHORT_STRING, |s|)]);
      if |s| > 0 { wb.Push(s); }
    } else {
      PushLength(wb, |s|);
      Assoc(old(wb.contents), LengthBytes(|s|), s);
      wb.Push(s);
    }
  }

  /** The start of a long string. */
  function LengthBytes(n: nat): Bytes {
    if n < 0x10000 then [Tag(LONG_STRING, 2)] + Le(n, 2) else [Tag(LONG_STRING, 4)] + Le(n, 4)
  }

  method PushLength(wb: WriteBlock, n: nat)
    requires wb.Valid()
    modifies wb.Repr
    ensures wb.Valid() && fresh(wb.Repr - old(wb.Repr)) && wb.contents == old(wb.contents) + LengthBytes(n)
  {
    hide WriteBlock.Valid, Le;
    if n < 0x10000 {
      Assoc(wb.contents, [Tag(LONG_STRING, 2)], Le(n, 2));
      wb.Push([Tag(LONG_STRING, 2)]);
      wb.Push(Le(n, 2));
    } else {
      Assoc(wb.contents, [Tag(LONG_STRING, 4)], Le(n, 4));
      wb.Push([Tag(LONG_STRING, 4)]);
      wb.Push(Le(n, 4));
    }
  }

  /** The start of a table. */
  method PackHead(wb: WriteBlock, n: nat)
    requires wb.Valid()
    modifies wb.Repr
    ensures wb.Valid() && fresh(wb.Repr - old(wb.Repr)) && wb.contents == old(wb.contents) + ArrayHead(n)
  {
    hide WriteBlock.Valid, IntBytes;
    if n >= MAX_COOKIE - 1 {
      Assoc(wb.contents, [Tag(TABLE, MAX_COOKIE - 1)], IntBytes(n));
      wb.Push([Tag(TABLE, MAX_COOKIE - 1)]);
      PackInteger(wb, n);
    } else {
      wb.Push([Tag(TABLE, n)]);
    }
  }

  /** wb_table_array */
  method PackArray(wb: WriteBlock, v: Value, depth: nat) returns (ok: bool)
    requires wb.Valid() && v.Table?
    modifies wb.Repr
    ensures wb.Valid() && fresh(wb.Repr - old(wb.Repr))
    ensures ok <==> forall i :: 0 <= i < |v.items| ==> Packable(v.items[i], depth)
    ensures ok ==> wb.contents == old(wb.contents) + ArrayHead(|v.items|) + ArrayFrom(v, 0)
    decreases v, 1
  {
    hide WriteBlock.Valid, Packable, Encode, ArrayHead;
    var n := |v.items|;
    PackHead(wb, n);
    var i := 0;
    while i < n
      invariant 0 <= i <= n && wb.Valid() && fresh(wb.Repr - old(wb.Repr))
      invariant forall j :: 0 <= j < i ==> Packable(v.items[j], depth)
      invariant wb.contents + ArrayFrom(v, i) == old(wb.contents) + ArrayHead(n) + ArrayFrom(v, 0)
    {
      Assoc(wb.contents, Encode(v.items[i]), ArrayFrom(v, i + 1));
      ok := PackOne(wb, v.items[i], depth);
      if !ok { return; }
      i := i + 1;
    }
    return true;
  }

  /** wb_table_hash: the pairs outside the array part, and the end mark. */
  method PackHash(wb: WriteBlock, v: Value, depth: nat) returns (ok: bool)
    requires wb.Valid() && v.Table?
    modifies wb.Repr
    ensures wb.Valid() && fresh(wb.Repr - old(wb.Repr))
    ensures ok <==>
            forall i :: 0 <= i < |v.pairs| ==> Packable(v.pairs[i].key, depth) && Packable(v.pairs[i].value, depth)
    ensures ok ==> wb.contents == old(wb.contents) + HashFrom(v, 0)
    decreases v, 1
  {
    hide WriteBlock.Valid, Packable, Encode;
    var i := 0;
    while i < |v.pairs|
      invariant 0 <= i <= |v.pairs| && wb.Valid() && fresh(wb.Repr - old(wb.Repr))
      invariant forall j :: 0 <= j < i ==> Packable(v.pairs[j].key, depth) && Packable(v.pairs[j].value, depth)
      invariant wb.contents + HashFrom(v, i) == old(wb.contents) + HashFrom(v, 0)
    {
      PairAssoc(wb.contents, Encode(v.pairs[i].key), Encode(v.pairs[i].value), HashFrom(v, i + 1));
      ok := PackOne(wb, v.pairs[i].key, depth);
      if !ok { return; }
      ok := PackOne(wb, v.pairs[i].value, depth);
      if !ok { return; }
      i := i + 1;
    }
    wb.Push([Tag(NIL, 0)]);
    return true;
  }

  /** pack_one: it fails exactly on what is too deep or of no kind that can be packed. */
  method PackOne(wb: WriteBlock, v: Value, depth: nat) returns (ok: bool)
    requires wb.Valid()
    modifies wb.Repr
    ensures wb.Valid() && fresh(wb.Repr - old(wb.Repr))
    ensures ok <==> Packable(v, depth)
    ensures ok ==> wb.contents == old(wb.contents) + Encode(v)
    decreases v, 2
  {
    if depth > MAX_DEPTH { return false; }
    if v.Table? {
      hide WriteBlock.Valid, ArrayHead, ArrayFrom, HashFrom;
      PairAssoc(wb.contents, ArrayHead(|v.items|), ArrayFrom(v, 0), HashFrom(v, 0));
      ok := PackArray(wb, v, depth + 1);
      if ok { ok := PackHash(wb, v, depth + 1); }
    } else if v.Other? {
      ok := false;
    } else {
      PackLeaf(wb, v);
      ok := true;
    }
  }

  /** A value without parts. */
  method PackLeaf(wb: WriteBlock, v: Value)
    requires wb.Valid() && !v.Table? && !v.Other?
    modifies wb.Repr
    ensures wb.Valid() && fresh(wb.Repr - old(wb.Repr)) && wb.contents == old(wb.contents) + Encode(v)
  {
    hide WriteBlock.Valid, IntBytes, StrBytes;
    match v
    case Nil => wb.Push([Tag(NIL, 0)]);
    case Int(n) => PackInteger(wb, n);
    case Real(bits) =>
      Assoc(wb.contents, [Tag(NUMBER, REAL)], bits);
      wb.Push([Tag(NUMBER, REAL)]);
      wb.Push(bits);
    case Bool(b) => wb.Push([Tag(BOOLEAN, if b then 1 else 0)]);
    case Str(s) => PackString(wb, s);
    case Pointer(bits) =>
      Assoc(wb.contents, [Tag(USERDATA, 0)], bits);
      wb.Push([Tag(USERDATA, 0)]);
      wb.Push(bits);
  }

  /** All values one after the other. */
  function EncodeAll(vs: seq<Value>): Bytes {
    if vs == [] then [] else EncodeAll(vs[..|vs| - 1]) + Encode(vs[|vs| - 1])
  }

  /** luaseri_pack */
  method Pack(vs: seq<Value>) returns (r: Option<array<Byte>>)
    ensures r.Some? <==> forall v <- vs :: Packable(v, 0)
    ensures r.Some? ==> fresh(r.value) && r.value[..] == EncodeAll(vs)
  {
    hide Encode, Packable, WriteBlock.Valid;
    var wb := new WriteBlock();
    var i := 0;
    while i < |vs|
      invariant 0 <= i <= |vs| && wb.Valid() && fresh(wb.Repr) && wb.contents == EncodeAll(vs[..i])
      invariant forall j :: 0 <= j < i ==> Packable(vs[j], 0)
    {
      var ok := PackOne(wb, vs[i], 0);
      if !ok { return None; }
      assert vs[..i + 1][..i] == vs[..i];
      i := i + 1;
    }
    assert vs[..i] == vs;
    var buffer := wb.Seri();
    return Some(buffer);
  }

  // -------------------------------------------------------------- unpacking

  /** get_integer */
  method ReadInteger(rb: ReadBlock, cookie: nat) returns (r: Option<int>)
    requires rb.Valid()
    modifies rb
    ensures rb.Valid() && rb.len <= old(rb.len)
    ensures Agrees(r, GetInteger(old(rb.Remaining()), cookie), rb.Remaining())
  {
    hide UnLe, Signed;
    if cookie == ZERO { return Some(0); }
    if cookie != BYTE && cookie != WORD && cookie != DWORD && cookie != QWORD { return None; }
    var n := rb.Read(if cookie == QWORD then 8 else cookie);
    if n.None? { return None; }
    return Some(if cookie == BYTE || cookie == WORD then UnLe(n.value) else Signed(n.value));
  }

  method ReadLong(rb: ReadBlock, cookie: nat) returns (r: Option<Bytes>)
    requires rb.Valid()
    modifies rb
    ensures rb.Valid() && rb.len <= old(rb.len)
    ensures Agrees(r, GetLong(old(rb.Remaining()), cookie), rb.Remaining())
  {
    hide UnLe, Take;
    if cookie != 2 && cookie != 4 { return None; }
    var n := rb.Read(cookie);
    if n.None? || UnLe(n.value) > INT_MAX { return None; }
    r := rb.Read(UnLe(n.value));
  }

  /** The size of the array part, from the cookie or from the stream. */
  method ReadSize(rb: ReadBlock, cookie: nat) returns (r: Option<int>)
    requires rb.Valid()
    modifies rb
    ensures rb.Valid() && rb.len <= old(rb.len)
    ensures Agrees(r, GetSize(old(rb.Remaining()), cookie), rb.Remaining())
  {
    hide GetInteger;
    if cookie != MAX_COOKIE - 1 { return Some(cookie); }
    var head := rb.Read(1);
    if head.None? || head.value[0] % 8 != NUMBER || head.value[0] / 8 == REAL { return None; }
    var n := ReadInteger(rb, head.value[0] / 8);
    return if n.None? then None else Some(ToInt(n.value));
  }

  /** The rest of a list, after `xs`. */
  function After<T>(xs: seq<T>, others: Got<seq<T>>): Got<seq<T>> {
    if others.Bad? then Bad else Got(xs + others.value, others.rest)
  }

  lemma {:induction false} AfterEnd<T>(xs: seq<T>, others: Got<seq<T>>, rest: Bytes)
    ensures After([], others) == others && After(xs, Got([], rest)) == Got(xs, rest)
  {
    if others.Got? { assert [] + others.value == others.value; }
    assert xs + [] == xs;
  }

  lemma {:induction false} AfterOne<T>(xs: seq<T>, x: T, others: Got<seq<T>>)
    ensures After(xs + [x], others) == After(xs, After([x], others))
  {
    if others.Got? { Assoc(xs, [x], others.value); }
  }

  /** unpack_table */
  method UnpackTable(rb: ReadBlock, cookie: nat) returns (r: Option<Value>)
    requires rb.Valid()
    modifies rb
    ensures rb.Valid() && rb.len <= old(rb.len)
    ensures Agrees(r, DecodeTable(old(rb.Remaining()), cookie), rb.Remaining())
    decreases rb.len, 1
  {
    hide Decode, GetSize, DecodeArray, DecodeHash;
    var size := ReadSize(rb, cookie);
    if size.None? { return None; }
    var items := UnpackItems(rb, size.value);
    if items.None? { return None; }
    var pairs := UnpackPairs(rb);
    return if pairs.None? then None else Some(Table(items.value, pairs.value));
  }

  method UnpackItems(rb: ReadBlock, n: int) returns (r: Option<seq<Value>>)
    requires rb.Valid()
    modifies rb
    ensures rb.Valid() && rb.len <= old(rb.len)
    ensures Agrees(r, DecodeArray(old(rb.Remaining()), n), rb.Remaining())
    decreases rb.len, 0, 1
  {
    hide Decode;
    var items, i := [], 1;
    ghost var start := rb.Remaining();
    AfterEnd([], DecodeArray(start, n), []);
    while i <= n
      invariant rb.Valid() && rb.len <= old(rb.len) && (n >= 0 ==> i <= n + 1) && (n < 0 ==> i == 1)
      invariant DecodeArray(start, n) == After(items, DecodeArray(rb.Remaining(), n - i + 1))
      decreases n - i
    {
      var x := UnpackOne(rb);
      if x.None? { return None; }
      AfterOne(items, x.value, DecodeArray(rb.Remaining(), n - i));
      items := items + [x.value];
      i := i + 1;
    }
    AfterEnd(items, Bad, rb.Remaining());
    return Some(items);
  }

  method UnpackPairs(rb: ReadBlock) returns (r: Option<seq<Pair>>)
    requires rb.Valid()
    modifies rb
    ensures rb.Valid() && rb.len <= old(rb.len)
    ensures Agrees(r, DecodeHash(old(rb.Remaining())), rb.Remaining())
    decreases rb.len, 0, 1
  {
    hide Decode;
    var pairs := [];
    ghost var start := rb.Remaining();
    AfterEnd([], DecodeHash(start), []);
    while true
      invariant rb.Valid() && rb.len <= old(rb.len)
      invariant DecodeHash(start) == After(pairs, DecodeHash(rb.Remaining()))
      decreases rb.len
    {
      var key := UnpackOne(rb);
      if key.None? { return None; }
      AfterEnd(pairs, Bad, rb.Remaining());
      if key.value.Nil? { return Some(pairs); }
      var value := UnpackOne(rb);
      if value.None? || !IsKey(key.value) { return None; }
      AfterOne(pairs, Pair(key.value, value.value), DecodeHash(rb.Remaining()));
      pairs := pairs + [Pair(key.value, value.value)];
    }
  }

  /** push_value */
  method PushValue(rb: ReadBlock, kind: nat, cookie: nat) returns (r: Option<Value>)
    requires rb.Valid()
    modifies rb
    ensures rb.Valid() && rb.len <= old(rb.len)
    ensures Agrees(r, DecodeAs(old(rb.Remaining()), kind, cookie), rb.Remaining())
    decreases rb.len, 2
  {
    hide GetInteger, GetLong, DecodeTable, Take;
    if kind == NIL { return Some(Nil); }
    if kind == BOOLEAN { return Some(Bool(cookie != 0)); }
    if kind == NUMBER && cookie != REAL {
      var n := ReadInteger(rb, cookie);
      return if n.None? then None else Some(Int(n.value));
    }
    if kind == NUMBER || kind == USERDATA {
      var bits := rb.Read(8);
      return if bits.None? then None else Some(if kind == NUMBER then Real(bits.value) else Pointer(bits.value));
    }
    if kind == SHORT_STRING || kind == LONG_STRING {
      var s: Option<Bytes>;
      if kind == SHORT_STRING { s := rb.Read(cookie); } else { s := ReadLong(rb, cookie); }
      return if s.None? then None else Some(Str(s.value));
    }
    if kind == TABLE {
      r := UnpackTable(rb, cookie);
    } else {
      r := None;
    }
  }

  /** unpack_one */
  method UnpackOne(rb: ReadBlock) returns (r: Option<Value>)
    requires rb.Valid()
    modifies rb
    ensures rb.Valid() && rb.len <= old(rb.len) && (r.Some? ==> rb.len < old(rb.len))
    ensures Agrees(r, Decode(old(rb.Remaining())), rb.Remaining())
    decreases rb.len, 0, 0
  {
    hide DecodeAs;
    var head := rb.Read(1);
    if head.None? { return None; }
    r := PushValue(rb, head.value[0] % 8, head.value[0] / 8);
  }

  /** All values of a stream. */
  function DecodeAll(s: Bytes): Got<seq<Value>>
    decreases |s|
  {
    if s == [] then Got([], [])
    else if Decode(s).Bad? then Bad
    else After([Decode(s).value], DecodeAll(Decode(s).rest))
  }

  /** luaseri_unpack */
  method Unpack(buffer: Bytes) returns (r: Option<seq<Value>>)
    ensures Agrees(r, DecodeAll(buffer), [])
  {
    hide Decode;
    var rb := new ReadBlock(buffer);
    var vs := [];
    AfterEnd([], DecodeAll(buffer), []);
    while rb.len > 0
      invariant rb.Valid() && DecodeAll(buffer) == After(vs, DecodeAll(rb.Remaining()))
      decreases rb.len
    {
      var v := UnpackOne(rb);
      if v.None? { return None; }
      AfterOne(vs, v.value, DecodeAll(rb.Remaining()));
      vs := vs + [v.value];
    }
    AfterEnd(vs, Bad, []);
    return Some(vs);
  }

  // ------------------------------------------------------------- round trip

  lemma {:induction false} AllBack(vs: seq<Value>, rest: Bytes)
    requires (forall v <- vs :: Fits(v) && Packable(v, 0)) && DecodeAll(rest).Got?
    ensures DecodeAll(EncodeAll(vs) + rest) == After(vs, DecodeAll(rest))
  {
    hide Encode, Decode, Fits, Packable;
    if vs == [] {
      assert [] + rest == rest;
      AfterEnd([], DecodeAll(rest), []);
    } else {
      var m := |vs| - 1;
      var s := Encode(vs[m]) + rest;
      Back(vs[m], 0, rest);
      AllBack(vs[..m], s);
      Assoc(EncodeAll(vs[..m]), Encode(vs[m]), rest);
      AfterOne(vs[..m], vs[m], DecodeAll(rest));
      assert vs == vs[..m] + [vs[m]];
    }
  }

  /** Values that Lua hands over come back from the message, when they can be packed. */
  lemma {:induction false} RoundTrip(vs: seq<Value>)
    requires forall v <- vs :: Fits(v) && Packable(v, 0)
    ensures DecodeAll(EncodeAll(vs)) == Got(vs, [])
  {
    AllBack(vs, []);
    AfterEnd(vs, Bad, []);
    assert EncodeAll(vs) + [] == EncodeAll(vs);
  }
}
