/** The chain of blocks that lua-seri.c packs into, and the cursor that it unpacks from. */
module SeriBlocks {
  import opened Basics
  import opened Octets
  import opened SeriValues

  const BLOCK_SIZE := 128

  /** `blocks` is the chain from the head to the current block, `ptr` the place in the
      current block, and `contents` all bytes that were pushed. */
  class WriteBlock {
    var blocks: seq<array<Byte>>
    var ptr: nat
    var len: nat
    ghost var contents: Bytes
    ghost var Repr: set<object>

    ghost predicate Valid()
      reads this, Repr
      ensures Valid() ==> this in Repr
    {
      var last := |blocks| - 1;
      && this in Repr && (forall k :: 0 <= k <= last ==> blocks[k] in Repr)
      && 0 <= last && (forall k :: 0 <= k <= last ==> blocks[k].Length == BLOCK_SIZE)
      && (forall j, k :: 0 <= j < k <= last ==> blocks[j] != blocks[k])
      && ptr <= BLOCK_SIZE && len == |contents| == last * BLOCK_SIZE + ptr
      && (forall k :: 0 <= k < last ==> blocks[k][..] == contents[k * BLOCK_SIZE..(k + 1) * BLOCK_SIZE])
      && blocks[last][..ptr] == contents[last * BLOCK_SIZE..]
    }

    /** wb_init */
    constructor ()
      ensures Valid() && contents == [] && fresh(Repr)
    {
      var b := new Byte[BLOCK_SIZE];
      blocks := [b];
      ptr, len, contents, Repr := 0, 0, [], {this, b};
    }

    /** blk_alloc: a full block is followed by an empty one. */
    method AddBlock()
      requires Valid() && ptr == BLOCK_SIZE
      modifies this
      ensures Valid() && contents == old(contents) && ptr == 0
      ensures fresh(Repr - old(Repr))
    {
      var b := new Byte[BLOCK_SIZE];
      assert b !in Repr;
      assert blocks[|blocks| - 1][..] == blocks[|blocks| - 1][..ptr];
      blocks, Repr := blocks + [b], Repr + {b};
      ptr := 0;
    }

    /** memcpy into the current block */
    method Copy(buffer: Bytes)
      requires Valid() && ptr + |buffer| <= BLOCK_SIZE
      modifies Repr
      ensures Valid() && contents == old(contents) + buffer && Repr == old(Repr) && ptr == old(ptr) + |buffer|
    {
      var b := blocks[|blocks| - 1];
      forall j | 0 <= j < |buffer| { b[ptr + j] := buffer[j]; }
      assert b[..ptr + |buffer|] == old(b[..ptr]) + buffer;
      contents := contents + buffer;
      ptr, len := ptr + |buffer|, len + |buffer|;
    }

    /** wb_push: whatever the size, the bytes come after those that are there. */
    method Push(buffer: Bytes)
      requires Valid()
      modifies Repr
      ensures Valid() && contents == old(contents) + buffer
      ensures fresh(Repr - old(Repr))
    {
      var rest := buffer;
      if ptr == BLOCK_SIZE { AddBlock(); }
      while ptr > BLOCK_SIZE - |rest|
        invariant Valid() && ptr < BLOCK_SIZE && contents + rest == old(contents) + buffer
        invariant fresh(Repr - old(Repr))
        decreases |rest|
      {
        var copy := BLOCK_SIZE - ptr;
        Copy(rest[..copy]);
        rest := rest[copy..];
        AddBlock();
      }
      Copy(rest);
    }

    /** Block `b` holds the bytes from `from` on. */
    lemma {:induction false} BlockIs(b: nat, from: nat, size: nat)
      requires Valid() && from == b * BLOCK_SIZE
      requires size == (if len - from >= BLOCK_SIZE then BLOCK_SIZE else len - from)
      requires size > 0
      ensures b < |blocks| && size <= blocks[b].Length && blocks[b][..size] == contents[from..from + size]
    {
      var last := |blocks| - 1;
      if b < last {
        assert blocks[b][..] == contents[from..from + BLOCK_SIZE];
        assert blocks[b][..size] == blocks[b][..];
      } else {
        assert blocks[last][..ptr] == contents[last * BLOCK_SIZE..];
      }
    }

    /** The bytes of one block, after those of the blocks before it. */
    method CopyOut(out: array<Byte>, from: nat, b: nat, size: nat)
      requires Valid() && out !in Repr && out.Length == len == |contents| && size > 0
      requires from == b * BLOCK_SIZE <= len && out[..from] == contents[..from]
      requires size == (if len - from >= BLOCK_SIZE then BLOCK_SIZE else len - from)
      modifies out
      ensures out[..from + size] == contents[..from + size]
    {
      BlockIs(b, from, size);
      hide Valid;
      forall j | 0 <= j < size { out[from + j] := blocks[b][j]; }
      assert out[from..from + size] == contents[from..from + size];
    }

    /** seri: the chain as one piece of memory. */
    method Seri() returns (buffer: array<Byte>)
      requires Valid()
      ensures fresh(buffer) && buffer[..] == contents
    {
      assert len == |contents|;
      hide Valid;
      buffer := new Byte[len];
      var left, b := len, 0;
      while left > 0
        invariant 0 <= left <= len && (left > 0 ==> left == len - b * BLOCK_SIZE)
        invariant buffer[..len - left] == contents[..len - left]
      {
        var from, size := len - left, if left >= BLOCK_SIZE then BLOCK_SIZE else left;
        CopyOut(buffer, from, b, size);
        left, b := left - size, b + 1;
      }
    }
  }

  class ReadBlock {
    const buffer: Bytes
    var ptr: nat
    var len: nat

    ghost predicate Valid()
      reads this
    {
      ptr + len == |buffer|
    }

    ghost function Remaining(): Bytes
      requires Valid()
      reads this
    {
      buffer[ptr..]
    }

    /** rball_init */
    constructor (bytes: Bytes)
      ensures Valid() && Remaining() == bytes && len == |bytes|
    {
      buffer, ptr, len := bytes, 0, |bytes|;
    }

    /** rb_read */
    method Read(n: nat) returns (r: Option<Bytes>)
      requires Valid()
      modifies this
      ensures Valid() && Agrees(r, Take(old(Remaining()), n), Remaining())
      ensures r.None? ==> len == old(len)
      ensures r.Some? ==> len == old(len) - n
    {
      if len < n { return None; }
      r := Some(buffer[ptr..ptr + n]);
      assert buffer[ptr..][..n] == buffer[ptr..ptr + n] && buffer[ptr..][n..] == buffer[ptr + n..];
      ptr, len := ptr + n, len - n;
    }
  }

  /** What was read, and what remains, are as specified; nothing is read on an error. */
  ghost predicate Agrees<T>(r: Option<T>, spec: Got<T>, remaining: Bytes) {
    match r
    case None => spec.Bad?
    case Some(x) => spec == Got(x, remaining)
  }
}
