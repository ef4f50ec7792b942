/** The state of lua-netpack.c: a hash table of chains of partial packets, and a ring
    of packets that grows. */
module NetQueue {
  import opened Arithmetic
  import opened Basics
  import opened NetFrames
  import opened Octets

  const QUEUESIZE := 1024
  const HASHSIZE := 4096

  datatype Netpack = Netpack(id: int, buffer: Bytes)

  /** A partial packet: only the first byte of its length (`read` is -1), or its length and
      the bytes that have been read. */
  datatype Uncomplete = Uncomplete(id: int, size: nat, buffer: Bytes, read: int, header: Byte)

  /** `Undefined` stands for a read behind the chunk. */
  datatype Reply = Nothing | Data(fd: int, buffer: Bytes) | More | Undefined

  function HashFd(fd: int): (h: nat)
    ensures h < HASHSIZE
  {
    (fd / 0x1000000 + fd / 0x1000 + fd) % 0x1_0000_0000 % HASHSIZE
  }

  // ----------------------------------------------------------------- chains

  predicate RecordOk(uc: Uncomplete) { uc.read == -1 || (0 <= uc.read == |uc.buffer| < uc.size < LIMIT) }

  /** The bytes of the stream that a record stands for. */
  function Raw(uc: Uncomplete): (r: Bytes)
    requires RecordOk(uc)
    ensures r != [] && !Whole(r)
  {
    if uc.read < 0 then [uc.header] else [uc.size / 256, uc.size % 256] + uc.buffer
  }

  predicate ChainOk(chain: seq<Uncomplete>, h: nat) {
    && (forall k :: 0 <= k < |chain| ==> RecordOk(chain[k]) && HashFd(chain[k].id) == h)
    && (forall j, k :: 0 <= j < k < |chain| ==> chain[j].id != chain[k].id)
  }

  /** The stream bytes that a chain holds for `fd`. */
  function RawIn(chain: seq<Uncomplete>, fd: int): Bytes
    requires forall uc <- chain :: RecordOk(uc)
  {
    if chain == [] then [] else if chain[0].id == fd then Raw(chain[0]) else RawIn(chain[1..], fd)
  }

  lemma {:induction false} RawAbsent(chain: seq<Uncomplete>, fd: int)
    requires (forall uc <- chain :: RecordOk(uc)) && forall k :: 0 <= k < |chain| ==> chain[k].id != fd
    ensures RawIn(chain, fd) == []
  {
    if chain != [] { RawAbsent(chain[1..], fd); }
  }

  /** Unlinking one record takes away its bytes, and no others. */
  lemma {:induction false} RawUnlink(chain: seq<Uncomplete>, h: nat, k: nat, fd: int)
    requires ChainOk(chain, h) && k < |chain|
    ensures ChainOk(chain[..k] + chain[k + 1..], h)
    ensures RawIn(chain, chain[k].id) == Raw(chain[k])
    ensures RawIn(chain[..k] + chain[k + 1..], fd) == if fd == chain[k].id then [] else RawIn(chain, fd)
  {
    var less := chain[..k] + chain[k + 1..];
    if k == 0 {
      assert less == chain[1..];
      if fd == chain[0].id { RawAbsent(less, fd); }
    } else {
      RawUnlink(chain[1..], h, k - 1, fd);
      assert less[0] == chain[0] && less[1..] == chain[1..][..k - 1] + chain[1..][k..];
    }
  }

  lemma {:induction false} TagMore(fd: int, p: Bytes, ps: seq<Bytes>)
    ensures Tagged(fd, [p] + ps) == [Netpack(fd, p)] + Tagged(fd, ps) && Tagged(fd, [p]) == [Netpack(fd, p)]
  {
  }

  class Queue {
    var cap: nat
    var head: nat
    var tail: nat
    const hash: array<seq<Uncomplete>>
    var queue: array<Netpack>

    ghost predicate Valid()
      reads this, hash, queue
    {
      && hash.Length == HASHSIZE && queue.Length == cap && head < cap && tail < cap
      && (forall h :: 0 <= h < HASHSIZE ==> ChainOk(hash[h], h))
    }

    /** The packets in the ring, oldest first. */
    ghost function Contents(): seq<Netpack>
      requires Valid()
      reads this, hash, queue
    {
      if head <= tail then queue[head..tail] else queue[head..] + queue[..tail]
    }

    /** The bytes of `fd` that wait for the rest of their packet. */
    ghost function Partial(fd: int): (r: Bytes)
      requires Valid()
      reads this, hash, queue
    {
      RawIn(hash[HashFd(fd)], fd)
    }

    /** get_queue: an empty queue, without partial packets. */
    constructor ()
      ensures Valid() && Contents() == [] && fresh(hash) && fresh(queue)
      ensures forall fd :: Partial(fd) == []
    {
      hash := new seq<Uncomplete>[HASHSIZE](_ => []);
      queue := new Netpack[QUEUESIZE];
      cap, head, tail := QUEUESIZE, 0, 0;
    }

    /** find_uncomplete: the record of `fd` is unlinked and handed over. */
    method FindUncomplete(fd: int) returns (uc: Option<Uncomplete>)
      requires Valid()
      modifies hash
      ensures Valid() && Contents() == old(Contents())
      ensures uc.None? ==> old(Partial(fd)) == []
      ensures uc.Some? ==> uc.value.id == fd && RecordOk(uc.value) && old(Partial(fd)) == Raw(uc.value)
      ensures forall f :: Partial(f) == if f == fd then [] else old(Partial(f))
    {
      var h := HashFd(fd);
      var chain := hash[h];
      var k := 0;
      while k < |chain| && chain[k].id != fd
        invariant 0 <= k <= |chain| && forall j :: 0 <= j < k ==> chain[j].id != fd
      {
        k := k + 1;
      }
      if k == |chain| {
        RawAbsent(chain, fd);
        return None;
      }
      hash[h] := chain[..k] + chain[k + 1..];
      forall f { RawUnlink(chain, h, k, f); }
      return Some(chain[k]);
    }

    /** save_uncomplete, with the record that its callers fill in. */
    method SaveUncomplete(uc: Uncomplete)
      requires Valid() && RecordOk(uc) && Partial(uc.id) == []
      modifies hash
      ensures Valid() && Contents() == old(Contents())
      ensures forall f :: Partial(f) == if f == uc.id then Raw(uc) else old(Partial(f))
    {
      var h := HashFd(uc.id);
      NotIn(hash[h], uc.id);
      hash[h] := [uc] + hash[h];
    }

    /** expand_queue: the full ring moves to a longer one. */
    method ExpandQueue()
      requires hash.Length == HASHSIZE && queue.Length == cap && cap > 0 && head == tail < cap
      requires forall h :: 0 <= h < HASHSIZE ==> ChainOk(hash[h], h)
      modifies this
      ensures Valid() && fresh(queue) && Contents() == old(queue[head..] + queue[..head])
    {
      ghost var all := queue[head..] + queue[..head];
      var wider := new Netpack[cap + QUEUESIZE];
      var i := 0;
      while i < cap
        invariant 0 <= i <= cap && fresh(wider) && wider.Length == cap + QUEUESIZE
        invariant forall j :: 0 <= j < i ==> wider[j] == all[j]
        modifies wider
      {
        WrapsOnce(head + i, cap);
        wider[i] := queue[(head + i) % cap];
        i := i + 1;
      }
      assert wider[..cap] == all;
      queue, head, tail, cap := wider, 0, cap, cap + QUEUESIZE;
    }

    /** push_data */
    method PushData(fd: int, buffer: Bytes)
      requires Valid()
      modifies this, queue
      ensures Valid() && (queue == old(queue) || fresh(queue))
      ensures Contents() == old(Contents()) + [Netpack(fd, buffer)]
      ensures forall f :: Partial(f) == old(Partial(f))
    {
      ghost var was := Contents();
      queue[tail] := Netpack(fd, buffer);
      tail := tail + 1;
      if tail >= cap { tail := tail - cap; }
      if head == tail {
        assert queue[head..] + queue[..head] == was + [Netpack(fd, buffer)];
        ExpandQueue();
      }
    }

    /** push_more: the packets of a chunk that starts at a packet. */
    method PushMore(fd: int, buffer: Bytes)
      requires Valid() && buffer != [] && Partial(fd) == []
      modifies this, hash, queue
      ensures Valid() && (queue == old(queue) || fresh(queue))
      ensures Contents() == old(Contents()) + Tagged(fd, Packets(buffer))
      ensures forall f :: Partial(f) == if f == fd then Rest(buffer) else old(Partial(f))
      decreases |buffer|
    {
      hide Valid, Contents, Partial, Packets, Rest, Tagged, RawIn;
      Unfinished(buffer);
      if |buffer| == 1 {
        SaveUncomplete(Uncomplete(fd, 0, [], -1, buffer[0]));
        return;
      }
      var size := Size(buffer);
      var rest := buffer[2..];
      if |rest| < size {
        SaveUncomplete(Uncomplete(fd, size, rest, |rest|, 0));
        return;
      }
      FirstPacket(buffer, rest[..size], rest[size..]);
      TagMore(fd, rest[..size], Packets(rest[size..]));
      PushData(fd, rest[..size]);
      if |rest| > size {
        PushMore(fd, rest[size..]);
      } else {
        Unfinished([]);
        assert rest[size..] == [];
      }
    }

    /** lpop */
    method Pop() returns (np: Option<Netpack>)
      requires Valid()
      modifies this
      ensures Valid() && queue == old(queue)
      ensures np.None? <==> old(Contents()) == []
      ensures np.Some? ==> old(Contents()) == [np.value] + Contents()
      ensures np.None? ==> Contents() == old(Contents())
      ensures forall f :: Partial(f) == old(Partial(f))
    {
      if head == tail { return None; }
      ghost var was := Contents();
      np := Some(queue[head]);
      head := head + 1;
      if head >= cap { head := 0; }
      assert was == [np.value] + Contents();
    }

    /** close_uncomplete */
    method CloseUncomplete(fd: int)
      requires Valid()
      modifies hash
      ensures Valid() && Contents() == old(Contents())
      ensures forall f :: Partial(f) == if f == fd then [] else old(Partial(f))
    {
      var _ := FindUncomplete(fd);
    }

    /** filter_data_: one chunk of `fd`.  A packet that ends with the chunk is handed over
        when it is the only one; otherwise all whole packets go into the ring.  An empty chunk
        is read behind its end unless the length of its packet is known. */
    method FilterData(fd: int, buffer: Bytes) returns (reply: Reply)
      requires Valid()
      modifies this, hash, queue
      ensures reply == Undefined <==> buffer == [] && |old(Partial(fd))| < 2
      ensures reply != Undefined ==> Valid() && (queue == old(queue) || fresh(queue))
      ensures reply != Undefined ==>
                var all := old(Partial(fd)) + buffer;
                && reply == Answer(fd, all)
                && Contents() == old(Contents()) + (if reply.More? then Tagged(fd, Packets(all)) else [])
      ensures reply != Undefined ==>
                forall f :: Partial(f) == if f == fd then Rest(old(Partial(fd)) + buffer) else old(Partial(f))
    {
      hide Valid, Contents, Partial, Answer, Packets, Rest, Tagged, RawIn;
      var found := FindUncomplete(fd);
      if found.Some? {
        reply := FillUncomplete(fd, found.value, buffer);
      } else {
        assert [] + buffer == buffer;
        reply := FirstChunk(fd, buffer);
      }
    }

    method FirstChunk(fd: int, buffer: Bytes) returns (reply: Reply)
      requires Valid() && Partial(fd) == []
      modifies this, hash, queue
      ensures reply == Undefined <==> buffer == []
      ensures reply != Undefined ==> Valid() && (queue == old(queue) || fresh(queue))
      ensures reply != Undefined ==> reply == Answer(fd, buffer)
      ensures reply != Undefined ==>
                && Contents() == old(Contents()) + (if reply.More? then Tagged(fd, Packets(buffer)) else [])
                && forall f :: Partial(f) == if f == fd then Rest(buffer) else old(Partial(f))
    {
      hide Valid, Contents, Partial, Packets, Rest, Tagged, RawIn;
      Unfinished(buffer);
      Unfinished([]);
      if buffer == [] { return Undefined; }
      if |buffer| == 1 {
        SaveUncomplete(Uncomplete(fd, 0, [], -1, buffer[0]));
        return Nothing;
      }
      var size := Size(buffer);
      var rest := buffer[2..];
      if |rest| < size {
        SaveUncomplete(Uncomplete(fd, size, rest, |rest|, 0));
        return Nothing;
      }
      FirstPacket(buffer, rest[..size], rest[size..]);
      if |rest| == size {
        assert rest[size..] == [] && rest[..size] == rest;
        return Data(fd, rest);
      }
      TagMore(fd, rest[..size], Packets(rest[size..]));
      Left(rest[size..]);
      PushData(fd, rest[..size]);
      PushMore(fd, rest[size..]);
      return More;
    }

    method FillUncomplete(fd: int, uc: Uncomplete, buffer: Bytes) returns (reply: Reply)
      requires Valid() && Partial(fd) == [] && RecordOk(uc) && uc.id == fd
      modifies this, hash, queue
      ensures reply == Undefined <==> buffer == [] && |Raw(uc)| < 2
      ensures reply != Undefined ==> Valid() && (queue == old(queue) || fresh(queue))
      ensures reply != Undefined ==> reply == Answer(fd, Raw(uc) + buffer)
      ensures reply != Undefined ==>
                && Contents() == old(Contents()) + (if reply.More? then Tagged(fd, Packets(Raw(uc) + buffer)) else [])
                && forall f :: Partial(f) == if f == fd then Rest(Raw(uc) + buffer) else old(Partial(f))
    {
      hide Valid, Contents, Partial, Packets, Rest, Tagged, RawIn;
      if uc.read < 0 {
        if buffer == [] { return Undefined; }
        var size := uc.header as int * 256 + buffer[0] as int;
        assert [size / 256, size % 256] + [] + buffer[1..] == Raw(uc) + buffer;
        reply := FillBody(Uncomplete(fd, size, [], 0, uc.header), buffer[1..]);
      } else {
        reply := FillBody(uc, buffer);
      }
    }

    /** The bytes of a chunk that follow what is in a record. */
    method FillBody(uc: Uncomplete, buffer: Bytes) returns (reply: Reply)
      requires Valid() && Partial(uc.id) == [] && 0 <= uc.read == |uc.buffer| <= uc.size < LIMIT
      requires uc.read == uc.size ==> uc.size == 0
      modifies this, hash, queue
      ensures Valid() && (queue == old(queue) || fresh(queue))
      ensures var all := [uc.size / 256, uc.size % 256] + uc.buffer + buffer;
              && reply == Answer(uc.id, all)
              && Contents() == old(Contents()) + (if reply.More? then Tagged(uc.id, Packets(all)) else [])
              && forall f :: Partial(f) == if f == uc.id then Rest(all) else old(Partial(f))
    {
      hide Valid, Contents, Partial, Packets, Rest, Tagged, RawIn;
      ghost var all := [uc.size / 256, uc.size % 256] + uc.buffer + buffer;
      assert Size(all) == uc.size && all[2..] == uc.buffer + buffer;
      var need := uc.size - uc.read;
      if |buffer| < need {
        Unfinished(all);
        SaveUncomplete(uc.(buffer := uc.buffer + buffer, read := uc.read + |buffer|));
        assert all == Raw(uc.(buffer := uc.buffer + buffer, read := uc.read + |buffer|));
        return Nothing;
      }
      var packet, after := uc.buffer + buffer[..need], buffer[need..];
      FirstPacket(all, packet, after);
      if after == [] {
        Unfinished([]);
        return Data(uc.id, packet);
      }
      TagMore(uc.id, packet, Packets(after));
      Left(after);
      PushData(uc.id, packet);
      PushMore(uc.id, after);
      return More;
    }
  }

  lemma {:induction false} NotIn(chain: seq<Uncomplete>, fd: int)
    requires (forall uc <- chain :: RecordOk(uc)) && RawIn(chain, fd) == []
    ensures forall k :: 0 <= k < |chain| ==> chain[k].id != fd
  {
    if chain != [] && chain[0].id != fd { NotIn(chain[1..], fd); }
  }

  /** Packets of one connection. */
  function Tagged(fd: int, ps: seq<Bytes>): (r: seq<Netpack>)
    ensures |r| == |ps|
  {
    seq(|ps|, i requires 0 <= i < |ps| => Netpack(fd, ps[i]))
  }

  /** What a chunk is answered with, when `all` are the bytes up to its end. */
  function Answer(fd: int, all: Bytes): Reply {
    if Packets(all) == [] then Nothing
    else if |Packets(all)| == 1 && Rest(all) == [] then Data(fd, Packets(all)[0])
    else More
  }
}
