/** Packets on a byte stream: two bytes of length, high byte first, and then the bytes. */
module NetFrames {

  import opened Octets

  const LIMIT := 0x10000

  datatype Framed = TooLong | Framed(bytes: Bytes)

  /** lpack: a packet as it goes on the stream. */
  function Pack(p: Bytes): Framed {
    if |p| >= LIMIT then TooLong else Framed([|p| / 256, |p| % 256] + p)
  }

  /** read_size */
  function Size(s: Bytes): (n: nat)
    requires |s| >= 2
    ensures n < LIMIT
  {
    s[0] as int * 256 + s[1] as int
  }

  /** Is there a whole packet at the front? */
  predicate Whole(s: Bytes) { |s| >= 2 && |s| >= 2 + Size(s) }

  /** The whole packets of a stream, and what follows them. */
  function Packets(s: Bytes): seq<Bytes> {
    if Whole(s) then [s[2..2 + Size(s)]] + Packets(s[2 + Size(s)..]) else []
  }

  function Rest(s: Bytes): (r: Bytes)
    ensures !Whole(r)
  {
    if Whole(s) then Rest(s[2 + Size(s)..]) else s
  }

  /** All packets of a list one after the other. */
  function Stream(ps: seq<Bytes>): Bytes
    requires forall p <- ps :: |p| < LIMIT
  {
    if ps == [] then [] else Pack(ps[0]).bytes + Stream(ps[1..])
  }

  /** A stream that starts with a whole packet. */
  lemma {:induction false} FirstPacket(all: Bytes, packet: Bytes, after: Bytes)
    requires |all| >= 2 && Size(all) == |packet| && all[2..] == packet + after
    ensures Packets(all) == [packet] + Packets(after) && Rest(all) == Rest(after)
  {
    assert all[2..2 + |packet|] == all[2..][..|packet|];
    assert all[2 + |packet|..] == all[2..][|packet|..];
  }

  lemma {:induction false} Unfinished(all: Bytes)
    ensures !Whole(all) ==> Packets(all) == [] && Rest(all) == all
  {
  }

  /** Bytes are not lost: they are in the packets or in the rest. */
  lemma {:induction false} Left(all: Bytes)
    requires all != []
    ensures Packets(all) != [] || Rest(all) != []
  {
  }

  /** A cut stream: the rest of the first part goes in front of the second. */
  lemma {:induction false} Cut(a: Bytes, b: Bytes)
    ensures Packets(a + b) == Packets(a) + Packets(Rest(a) + b)
    ensures Rest(a + b) == Rest(Rest(a) + b)
    decreases |a|
  {
    hide Packets, Rest;
    if Whole(a) {
      var n := 2 + Size(a);
      FirstPacket(a, a[2..n], a[n..]);
      FirstPacket(a + b, a[2..n], a[n..] + b);
      Cut(a[n..], b);
    } else {
      Unfinished(a);
    }
  }

  /** What is on the stream is what was packed. */
  lemma {:induction false} StreamPackets(ps: seq<Bytes>)
    requires forall p <- ps :: |p| < LIMIT
    ensures Packets(Stream(ps)) == ps && Rest(Stream(ps)) == []
  {
    if ps != [] {
      var s, n := Stream(ps), |ps[0]|;
      StreamPackets(ps[1..]);
      assert s[0] == n / 256 && s[1] == n % 256;
      assert Size(s) == n && s[2..2 + n] == ps[0] && s[2 + n..] == Stream(ps[1..]);
    }
  }
}
