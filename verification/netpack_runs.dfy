/** Runs of lua-netpack.c: chunks of any connections come in, connections close, and
    the packets in the ring are popped, in any order. */
module NetRuns {
  import opened Basics
  import opened NetFrames
  import opened NetQueue
  import opened Octets

  datatype Op = Filter(fd: int, chunk: Bytes) | Close(fd: int) | Pop

  /** A packet, with its place among all packets that were found. */
  datatype Emission = Emission(n: nat, id: int, packet: Bytes)

  /** `partial`: the bytes that wait; `ring`: the packets to pop; `log`: all packets in the
      order in which they were found; `out`: those that the caller has got. */
  datatype State = State(partial: imap<int, Bytes>, ring: seq<Emission>, log: seq<Emission>, out: seq<Emission>)

  ghost const EMPTY := State(imap fd: int | true :: [], [], [], [])

  function Numbered(n: nat, fd: int, ps: seq<Bytes>): (r: seq<Emission>)
    ensures |r| == |ps|
  {
    seq(|ps|, i requires 0 <= i < |ps| => Emission(n + i, fd, ps[i]))
  }

  ghost predicate Total(s: State) { forall fd: int :: fd in s.partial }

  /** A chunk, as `FilterData` treats it. */
  ghost function Filtered(s: State, fd: int, chunk: Bytes): (t: State)
    requires Total(s)
    ensures Total(t)
  {
    var all := s.partial[fd] + chunk;
    var found := Numbered(|s.log|, fd, Packets(all));
    var s1 := s.(partial := s.partial[fd := Rest(all)], log := s.log + found);
    match Answer(fd, all)
    case Nothing => s1
    case Data(_, _) => s1.(out := s.out + found)
    case _ => s1.(ring := s.ring + found)
  }

  ghost function Step(s: State, op: Op): (t: State)
    requires Total(s)
    ensures Total(t)
  {
    match op
    case Filter(fd, chunk) => Filtered(s, fd, chunk)
    case Close(fd) => s.(partial := s.partial[fd := []])
    case Pop => if s.ring == [] then s else s.(ring := s.ring[1..], out := s.out + [s.ring[0]])
  }

  ghost function Run(ops: seq<Op>): (s: State)
    ensures Total(s)
  {
    if ops == [] then EMPTY else Step(Run(ops[..|ops| - 1]), ops[|ops| - 1])
  }

  // ------------------------------------------------- the queue does the steps

  function Plain(e: Emission): Netpack { Netpack(e.id, e.packet) }

  /** The queue holds what the state says. */
  ghost predicate Stands(q: Queue, s: State)
    requires q.Valid() && Total(s)
    reads q, q.hash, q.queue
  {
    && (forall fd :: q.Partial(fd) == s.partial[fd])
    && |q.Contents()| == |s.ring| && (forall i :: 0 <= i < |s.ring| ==> q.Contents()[i] == Plain(s.ring[i]))
  }

  /** The operations of the queue are the steps of the state. */
  method Perform(q: Queue, op: Op, ghost s: State) returns (reply: Reply, np: Option<Netpack>)
    requires q.Valid() && Total(s) && Stands(q, s)
    requires op.Filter? ==> op.chunk != [] || |s.partial[op.fd]| >= 2
    modifies q, q.hash, q.queue
    ensures q.Valid() && Stands(q, Step(s, op))
    ensures reply.Data? ==> Step(s, op).out == s.out + [Emission(|s.log|, reply.fd, reply.buffer)]
    ensures np.Some? ==> |Step(s, op).out| == |s.out| + 1 && np.value == Plain(Step(s, op).out[|s.out|])
    ensures !reply.Data? && np.None? ==> Step(s, op).out == s.out
  {
    hide Queue.Valid, Queue.Partial, Queue.Contents, Packets, Rest;
    reply, np := Nothing, None;
    match op
    case Filter(fd, chunk) => reply := q.FilterData(fd, chunk);
    case Close(fd) => q.CloseUncomplete(fd);
    case Pop => np := q.Pop();
  }

  // ------------------------------------------------------- what comes out

  /** The packets of one connection. */
  function Of(es: seq<Emission>, fd: int): seq<Emission> {
    if es == [] then []
    else Of(es[..|es| - 1], fd) + if es[|es| - 1].id == fd then [es[|es| - 1]] else []
  }

  function Payload(es: seq<Emission>): seq<Bytes> {
    seq(|es|, i requires 0 <= i < |es| => es[i].packet)
  }

  /** The byte streams of a connection: a close ends one, and the next begins. */
  function Streams(ops: seq<Op>, fd: int): (r: seq<Bytes>)
    ensures r != []
  {
    if ops == [] then [[]]
    else
      var before, op := Streams(ops[..|ops| - 1], fd), ops[|ops| - 1];
      var last := |before| - 1;
      if op.Filter? && op.fd == fd then before[last := before[last] + op.chunk]
      else if op.Close? && op.fd == fd then before + [[]]
      else before
  }

  function AllPackets(streams: seq<Bytes>): seq<Bytes> {
    if streams == [] then [] else AllPackets(streams[..|streams| - 1]) + Packets(streams[|streams| - 1])
  }

  lemma {:induction false} OfAppend(a: seq<Emission>, b: seq<Emission>, fd: int)
    ensures Of(a + b, fd) == Of(a, fd) + Of(b, fd)
  {
    if b == [] {
      assert a + b == a;
    } else {
      OfAppend(a, b[..|b| - 1], fd);
      assert (a + b)[..|a + b| - 1] == a + b[..|b| - 1];
    }
  }

  lemma {:induction false} OfNumbered(n: nat, fd: int, ps: seq<Bytes>, f: int)
    ensures Of(Numbered(n, fd, ps), f) == if f == fd then Numbered(n, fd, ps) else []
  {
    if ps != [] {
      var m := |ps| - 1;
      OfNumbered(n, fd, ps[..m], f);
      assert Numbered(n, fd, ps)[..m] == Numbered(n, fd, ps[..m]);
    }
  }

  /** Over every run, whatever the chunks and however connections mix: the packets found on
      a connection are those of its byte streams, in order, and what waits is the rest of
      the last stream. */
  lemma {:induction false} FindsPackets(ops: seq<Op>, fd: int)
    ensures Payload(Of(Run(ops).log, fd)) == AllPackets(Streams(ops, fd))
    ensures var streams := Streams(ops, fd); Run(ops).partial[fd] == Rest(streams[|streams| - 1])
  {
    hide Packets, Rest;
    if ops == [] {
      Unfinished([]);
    } else {
      var m := |ops| - 1;
      var s, op, before := Run(ops[..m]), ops[m], Streams(ops[..m], fd);
      FindsPackets(ops[..m], fd);
      if op.Filter? {
        FilterFinds(s, op.fd, op.chunk, fd);
        if op.fd == fd { LastGrows(before, op.chunk); }
      } else if op.Close? && op.fd == fd {
        Unfinished([]);
        assert (before + [[]])[..|before|] == before;
      }
    }
  }

  lemma {:induction false} FilterFinds(s: State, fd: int, chunk: Bytes, f: int)
    requires Total(s)
    ensures Payload(Of(Filtered(s, fd, chunk).log, f))
            == Payload(Of(s.log, f)) + if f == fd then Packets(s.partial[fd] + chunk) else []
    ensures Filtered(s, fd, chunk).partial[f] == if f == fd then Rest(s.partial[fd] + chunk) else s.partial[f]
  {
    hide Packets, Rest, Of;
    var ps := Packets(s.partial[fd] + chunk);
    OfAppend(s.log, Numbered(|s.log|, fd, ps), f);
    OfNumbered(|s.log|, fd, ps, f);
  }

  lemma {:induction false} LastGrows(streams: seq<Bytes>, chunk: Bytes)
    requires streams != []
    ensures var last := |streams| - 1;
            && AllPackets(streams[last := streams[last] + chunk])
               == AllPackets(streams) + Packets(Rest(streams[last]) + chunk)
            && Rest(streams[last] + chunk) == Rest(Rest(streams[last]) + chunk)
  {
    hide Packets, Rest;
    var last := |streams| - 1;
    Cut(streams[last], chunk);
    assert streams[last := streams[last] + chunk][..last] == streams[..last];
  }

  // --------------------------------------------------------- order and loss

  ghost predicate Rising(es: seq<Emission>) { forall i, j :: 0 <= i < j < |es| ==> es[i].n < es[j].n }

  ghost predicate FlowOk(s: State) {
    && multiset(s.out) + multiset(s.ring) == multiset(s.log)
    && Rising(s.ring) && (forall i :: 0 <= i < |s.log| ==> s.log[i].n == i)
  }

  lemma {:induction false} InLog(s: State, e: Emission)
    requires FlowOk(s) && (e in s.ring || e in s.out)
    ensures e in s.log && e.n < |s.log| && s.log[e.n] == e
  {
    assert e in multiset(s.log);
  }

  lemma {:induction false} FilterFlows(s: State, fd: int, chunk: Bytes)
    requires Total(s) && FlowOk(s)
    ensures FlowOk(Filtered(s, fd, chunk))
  {
    hide Packets, Rest, Numbered;
    var ps := Packets(s.partial[fd] + chunk);
    var found, t := Numbered(|s.log|, fd, ps), Filtered(s, fd, chunk);
    assert forall i :: 0 <= i < |ps| ==> found[i].n == |s.log| + i by { NumberedAt(|s.log|, fd, ps); }
    assert multiset(s.log + found) == multiset(s.log) + multiset(found);
    assert multiset(s.out + found) == multiset(s.out) + multiset(found);
    assert multiset(s.ring + found) == multiset(s.ring) + multiset(found);
    assert found == [] ==> multiset(found) == multiset{};
    forall i | 0 <= i < |s.ring| ensures s.ring[i].n < |s.log| { InLog(s, s.ring[i]); }
  }

  lemma {:induction false} NumberedAt(n: nat, fd: int, ps: seq<Bytes>)
    ensures forall i :: 0 <= i < |ps| ==> Numbered(n, fd, ps)[i] == Emission(n + i, fd, ps[i])
  {
  }

  lemma {:induction false} PopFlows(s: State)
    requires Total(s) && FlowOk(s)
    ensures FlowOk(Step(s, Pop))
  {
    if s.ring != [] {
      assert s.ring == [s.ring[0]] + s.ring[1..];
      assert multiset(s.out + [s.ring[0]]) == multiset(s.out) + multiset{s.ring[0]};
    }
  }

  /** No packet is lost or repeated: what the caller has got and what is in the ring are
      all packets found, each once. */
  lemma {:induction false} NothingLost(ops: seq<Op>)
    ensures FlowOk(Run(ops))
  {
    hide FlowOk;
    if ops == [] {
      EmptyOk();
    } else {
      NothingLost(ops[..|ops| - 1]);
      var s := Run(ops[..|ops| - 1]);
      match ops[|ops| - 1]
      case Filter(fd, chunk) => FilterFlows(s, fd, chunk);
      case Close(fd) => CloseFlows(s, fd);
      case Pop => PopFlows(s);
    }
  }

  lemma {:induction false} CloseFlows(s: State, fd: int)
    requires Total(s) && FlowOk(s)
    ensures FlowOk(Step(s, Close(fd)))
  {
  }

  lemma {:induction false} EmptyOk()
    ensures FlowOk(EMPTY)
  {
  }

  /** Does this chunk bring a packet that the caller gets at once, while an earlier packet
      of the same connection is still in the ring? */
  ghost predicate Overtakes(s: State, op: Op)
    requires Total(s)
  {
    op.Filter? && Answer(op.fd, s.partial[op.fd] + op.chunk).Data? && Of(s.ring, op.fd) != []
  }

  ghost predicate OvertakesAt(ops: seq<Op>, fd: int, k: nat)
    requires k < |ops|
  {
    ops[k].Filter? && ops[k].fd == fd && Overtakes(Run(ops[..k]), ops[k])
  }

  /** The caller gets the packets of `fd` in order: first those it has, then those in the ring. */
  ghost predicate InOrder(s: State, fd: int) { Of(s.out, fd) + Of(s.ring, fd) == Of(s.log, fd) }

  lemma {:induction false} OfMember(es: seq<Emission>, fd: int, e: Emission)
    requires e in Of(es, fd)
    ensures e in es && e.id == fd
  {
    if e in Of(es[..|es| - 1], fd) { OfMember(es[..|es| - 1], fd, e); }
  }

  lemma {:induction false} FilterOrder(s: State, f: int, chunk: Bytes, fd: int)
    requires Total(s) && FlowOk(s)
    ensures InOrder(Filtered(s, f, chunk), fd) <==> InOrder(s, fd) && (f == fd ==> !Overtakes(s, Filter(f, chunk)))
  {
    hide Packets, Rest, Of, Numbered, FlowOk;
    var ps := Packets(s.partial[f] + chunk);
    var found := Numbered(|s.log|, f, ps);
    OfNumbered(|s.log|, f, ps, fd);
    OfAppend(s.log, found, fd);
    OfAppend(s.out, found, fd);
    OfAppend(s.ring, found, fd);
    if f == fd && Answer(f, s.partial[f] + chunk).Data? {
      DataOrder(s, f, ps);
    } else if f == fd {
      assert Of(s.out, fd) + (Of(s.ring, fd) + found) == (Of(s.out, fd) + Of(s.ring, fd)) + found;
      assert ps == [] ==> found == [] && Of(s.log, fd) + found == Of(s.log, fd);
      Cancel(Of(s.out, fd) + Of(s.ring, fd), Of(s.log, fd), found);
    } else {
      assert Of(s.log, fd) + [] == Of(s.log, fd) && Of(s.out, fd) + [] == Of(s.out, fd);
      assert Of(s.ring, fd) + [] == Of(s.ring, fd);
    }
  }

  lemma {:induction false} Cancel<T>(a: seq<T>, b: seq<T>, x: seq<T>)
    ensures a + x == b + x <==> a == b
  {
    if a + x == b + x {
      assert |a + x| == |b + x|;
      assert a == (a + x)[..|a|] && b == (b + x)[..|b|];
    }
  }

  /** A packet that goes past the ring is behind nothing only if nothing is there. */
  lemma {:induction false} DataOrder(s: State, fd: int, ps: seq<Bytes>)
    requires Total(s) && FlowOk(s) && |ps| == 1
    ensures var found := Numbered(|s.log|, fd, ps);
            Of(s.out, fd) + found + Of(s.ring, fd) == Of(s.log, fd) + found
            <==> InOrder(s, fd) && Of(s.ring, fd) == []
  {
    hide Of, FlowOk;
    var found, ring := Numbered(|s.log|, fd, ps), Of(s.ring, fd);
    var left, right := Of(s.out, fd) + found + ring, Of(s.log, fd) + found;
    if ring != [] {
      var e := ring[|ring| - 1];
      OfMember(s.ring, fd, e);
      InLog(s, e);
      assert left[|left| - 1] == e && right[|right| - 1].n == |s.log|;
    } else if left == right {
      assert Of(s.out, fd) == left[..|left| - 1] == right[..|right| - 1] == Of(s.log, fd);
    }
  }

  lemma {:induction false} PopOrder(s: State, fd: int)
    requires Total(s)
    ensures InOrder(Step(s, Pop), fd) <==> InOrder(s, fd)
  {
    hide Of;
    if s.ring != [] {
      OfAppend(s.out, [s.ring[0]], fd);
      OfAppend([s.ring[0]], s.ring[1..], fd);
      assert [s.ring[0]] + s.ring[1..] == s.ring;
    }
  }

  lemma {:induction false} OrderStep(s: State, op: Op, fd: int)
    requires Total(s) && FlowOk(s)
    ensures InOrder(Step(s, op), fd) <==> InOrder(s, fd) && !(op.Filter? && op.fd == fd && Overtakes(s, op))
  {
    hide FlowOk, Of, Packets, Rest, Overtakes, InOrder, Filtered;
    match op
    case Filter(f, chunk) => FilterOrder(s, f, chunk, fd);
    case Close(f) => CloseOrder(s, f, fd);
    case Pop => PopOrder(s, fd);
  }

  /** Over every run the packets of a connection come in order exactly when none was handed
      over at once while an earlier one was in the ring. */
  lemma {:induction false} OrderExactly(ops: seq<Op>, fd: int)
    ensures InOrder(Run(ops), fd) <==> forall k: nat :: k < |ops| ==> !OvertakesAt(ops, fd, k)
  {
    hide FlowOk, Of, Packets, Rest, Overtakes, InOrder;
    if ops == [] {
      EmptyOrder(fd);
    } else {
      var m := |ops| - 1;
      var s := Run(ops[..m]);
      OrderExactly(ops[..m], fd);
      NothingLost(ops[..m]);
      OrderStep(s, ops[m], fd);
      forall k: nat | k < m ensures OvertakesAt(ops[..m], fd, k) <==> OvertakesAt(ops, fd, k) {
        assert ops[..m][..k] == ops[..k];
      }
      if InOrder(Run(ops), fd) {
        forall k: nat | k < |ops| ensures !OvertakesAt(ops, fd, k) {
          if k < m { assert !OvertakesAt(ops[..m], fd, k); }
        }
      } else if InOrder(s, fd) {
        assert OvertakesAt(ops, fd, m);
      } else {
        var k: nat :| k < m && OvertakesAt(ops[..m], fd, k);
        assert OvertakesAt(ops, fd, k);
      }
    }
  }

  lemma {:induction false} EmptyOrder(fd: int)
    ensures InOrder(EMPTY, fd)
  {
  }

  lemma {:induction false} CloseOrder(s: State, f: int, fd: int)
    requires Total(s)
    ensures InOrder(Step(s, Close(f)), fd) <==> InOrder(s, fd)
  {
  }

  /** Packets that were framed, cut into any chunks and mixed with other connections, are
      found as they were sent, with nothing left; and if none overtakes, what the caller has
      got and will pop are those packets in order. */
  lemma {:induction false} RoundTrip(ops: seq<Op>, fd: int, ps: seq<Bytes>)
    requires (forall p <- ps :: |p| < LIMIT) && Streams(ops, fd) == [Stream(ps)]
    ensures Payload(Of(Run(ops).log, fd)) == ps && Run(ops).partial[fd] == []
    ensures (forall k: nat :: k < |ops| ==> !OvertakesAt(ops, fd, k)) ==>
              Payload(Of(Run(ops).out, fd) + Of(Run(ops).ring, fd)) == ps
  {
    hide Packets, Rest, OvertakesAt, Of;
    FindsPackets(ops, fd);
    StreamPackets(ps);
    assert AllPackets([Stream(ps)]) == AllPackets([]) + Packets(Stream(ps));
    OrderExactly(ops, fd);
  }

  /** A packet is overtaken: two packets come in one chunk and go into the ring, and the one
      in the next chunk is handed over before they are popped. */
  lemma {:induction false} Overtaken(fd: int, p: Bytes, q: Bytes, r: Bytes)
    requires |p| < LIMIT && |q| < LIMIT && |r| < LIMIT
    ensures !InOrder(Run([Filter(fd, Stream([p, q])), Filter(fd, Stream([r]))]), fd)
  {
    var ops := [Filter(fd, Stream([p, q])), Filter(fd, Stream([r]))];
    StreamPackets([p, q]);
    StreamPackets([r]);
    hide Packets, Rest, Stream, InOrder;
    var s := FirstTwo(ops, fd, p, q);
    assert [] + ops[1].chunk == ops[1].chunk;
    assert OvertakesAt(ops, fd, 1);
    OrderExactly(ops, fd);
  }

  lemma {:induction false} FirstTwo(ops: seq<Op>, fd: int, p: Bytes, q: Bytes) returns (s: State)
    requires |ops| == 2 && ops[0].Filter? && ops[0].fd == fd
    requires Packets(ops[0].chunk) == [p, q] && Rest(ops[0].chunk) == []
    ensures s == Run(ops[..1]) && s.partial[fd] == [] && Of(s.ring, fd) != []
  {
    hide Packets, Rest;
    assert ops[..1][..0] == [] && ops[..1][0] == ops[0];
    assert [] + ops[0].chunk == ops[0].chunk;
    s := Filtered(EMPTY, fd, ops[0].chunk);
    assert s.ring == [] + Numbered(0, fd, [p, q]) == Numbered(0, fd, [p, q]);
    OfNumbered(0, fd, [p, q], fd);
  }
}
