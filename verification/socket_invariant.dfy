/** What every step of the socket keeps. */
module SocketInvariant {
  import opened Basics
  import opened SocketSystem

  // ------------------------------------------------------ bytes and packets

  function Flat(ps: seq<Packet>): seq<Byte> {
    if ps == [] then [] else Flat(ps[..|ps| - 1]) + ps[|ps| - 1].data
  }

  /** What is written of the packet that is partly written, if any. */
  function Front(dw: Option<Buffer>, high: seq<Buffer>): seq<Byte>
    requires (dw.Some? ==> dw.value.Valid()) && (high != [] ==> high[0].Valid())
  {
    if dw.Some? then dw.value.Written() else if high != [] then high[0].Written() else []
  }

  /** Whole packets, and then `front`. */
  ghost predicate Framed(bytes: seq<Byte>, complete: seq<Packet>, front: seq<Byte>) {
    forall k :: Shown(k) ==> bytes == Flat(complete) + front
  }

  lemma {:induction false} FramedMore(bytes: seq<Byte>, complete: seq<Packet>, data: seq<Byte>, i: nat, j: nat)
    requires i <= j <= |data| && Framed(bytes, complete, data[..i])
    ensures Framed(bytes + data[i..j], complete, data[..j])
  {
    assert Shown(0);
    assert data[..j] == data[..i] + data[i..j];
    assert Flat(complete) + data[..i] + data[i..j] == Flat(complete) + data[..j];
  }

  lemma {:induction false} FramedDone(bytes: seq<Byte>, complete: seq<Packet>, p: Packet)
    requires Framed(bytes, complete, p.data)
    ensures Framed(bytes, complete + [p], [])
  {
    assert Shown(0);
    assert (complete + [p])[..|complete|] == complete;
  }

  // ------------------------------------------------------------ the counters

  function UnsentOf(list: seq<Buffer>): int
    requires AllValid(list)
  {
    if list == [] then 0 else list[|list| - 1].Unsent() + UnsentOf(list[..|list| - 1])
  }

  predicate AllValid(list: seq<Buffer>) { forall b <- list :: b.Valid() }

  ghost predicate WbOk(wbSize: int, high: seq<Buffer>, low: seq<Buffer>) {
    forall k :: Shown(k) ==> AllValid(high) && AllValid(low) && wbSize == UnsentOf(high) + UnsentOf(low)
  }

  lemma {:induction false} UnsentFirst(list: seq<Buffer>)
    requires list != [] && AllValid(list)
    ensures AllValid(list[1..]) && UnsentOf(list) == list[0].Unsent() + UnsentOf(list[1..])
  {
    var m := |list| - 1;
    if m == 0 {
      assert list[..0] == list[1..] == [];
    } else {
      UnsentFirst(list[..m]);
      assert list[..m][1..] == list[1..][..m - 1];
    }
  }

  lemma {:induction false} WbAppend(wb: int, high: seq<Buffer>, low: seq<Buffer>, p: Packet)
    requires WbOk(wb, high, low)
    ensures WbOk(wb + |p.data|, high + [Buffer(p, 0)], low) && WbOk(wb + |p.data|, high, low + [Buffer(p, 0)])
  {
    assert Shown(0);
    assert (high + [Buffer(p, 0)])[..|high|] == high && (low + [Buffer(p, 0)])[..|low|] == low;
  }

  lemma {:induction false} WbPush(wb: int, high: seq<Buffer>, low: seq<Buffer>, b: Buffer)
    requires WbOk(wb, high, low) && b.Valid()
    ensures WbOk(wb + b.Unsent(), [b] + high, low)
  {
    assert Shown(0);
    assert ([b] + high)[1..] == high;
    UnsentFirst([b] + high);
  }

  /** Taking the head off one list, or changing it. */
  lemma {:induction false} WbHead(wb: int, high: seq<Buffer>, low: seq<Buffer>)
    requires WbOk(wb, high, low)
    ensures high != [] ==> high[0].Valid() && WbOk(wb - high[0].Unsent(), high[1..], low)
    ensures low != [] ==> low[0].Valid() && WbOk(wb - low[0].Unsent(), high, low[1..])
    ensures high == [] && low == [] ==> wb == 0
  {
    assert Shown(0);
    if high != [] { UnsentFirst(high); }
    if low != [] { UnsentFirst(low); }
  }

  function SendsIn(pipe: seq<Command>): nat {
    if pipe == [] then 0 else SendsIn(pipe[..|pipe| - 1]) + if pipe[|pipe| - 1].Send? then 1 else 0
  }

  function Inserting(senders: seq<Sender>): nat {
    if senders == [] then 0
    else Inserting(senders[..|senders| - 1]) + if senders[|senders| - 1].state.Insert? then 1 else 0
  }

  function InHand(server: Server): nat { if server.Taking? || server.Counting? then 1 else 0 }

  /** The counter `sending`: the requests on their way to the lists. */
  ghost predicate SendingOk(sending: nat, pipe: seq<Command>, hand: nat, senders: seq<Sender>) {
    forall k :: Shown(k) ==> sending == SendsIn(pipe) + hand + Inserting(senders)
  }

  lemma {:induction false} SendsFirst(pipe: seq<Command>)
    requires pipe != []
    ensures SendsIn(pipe) == SendsIn(pipe[1..]) + if pipe[0].Send? then 1 else 0
  {
    var m := |pipe| - 1;
    if m == 0 {
      assert pipe[..0] == pipe[1..] == [];
    } else {
      SendsFirst(pipe[..m]);
      assert pipe[..m][1..] == pipe[1..][..m - 1];
    }
  }

  lemma {:induction false} SendingTake(sending: nat, pipe: seq<Command>, senders: seq<Sender>)
    requires SendingOk(sending, pipe, 0, senders) && pipe != []
    ensures SendingOk(sending, pipe[1..], if pipe[0].Send? then 1 else 0, senders)
  {
    assert Shown(0);
    SendsFirst(pipe);
  }

  lemma {:induction false} SendingInsert(sending: nat, pipe: seq<Command>, hand: nat, senders: seq<Sender>, c: Command)
    requires SendingOk(sending, pipe, hand, senders)
    ensures !c.Send? ==> SendingOk(sending, pipe + [c], hand, senders)
    ensures SendingOk(sending, pipe, hand, senders + [Sender(Away, 0)])
  {
    assert Shown(0);
    assert (pipe + [c])[..|pipe|] == pipe && (senders + [Sender(Away, 0)])[..|senders|] == senders;
  }

  lemma {:induction false} InsertingUpdate(senders: seq<Sender>, u: nat, x: Sender)
    requires u < |senders|
    ensures Inserting(senders[u := x])
            == Inserting(senders) + (if x.state.Insert? then 1 else 0) - (if senders[u].state.Insert? then 1 else 0)
  {
    var m := |senders| - 1;
    if u == m {
      assert senders[u := x][..m] == senders[..m];
    } else {
      assert senders[u := x][..m] == senders[..m][u := x];
      InsertingUpdate(senders[..m], u, x);
    }
  }

  /** A sender moves: it enters `Insert` with the count, and leaves it with the request in the pipe. */
  lemma {:induction false} SendingMove(sending: nat, pipe: seq<Command>, hand: nat, senders: seq<Sender>, u: nat,
                                       x: Sender, p: Packet)
    requires SendingOk(sending, pipe, hand, senders) && u < |senders|
    ensures !x.state.Insert? && !senders[u].state.Insert? ==> SendingOk(sending, pipe, hand, senders[u := x])
    ensures x.state.Insert? && !senders[u].state.Insert? ==> SendingOk(sending + 1, pipe, hand, senders[u := x])
    ensures !x.state.Insert? && senders[u].state.Insert? ==> SendingOk(sending, pipe + [Send(p)], hand, senders[u := x])
  {
    assert Shown(0);
    InsertingUpdate(senders, u, x);
    assert (pipe + [Send(p)])[..|pipe|] == pipe;
  }

  lemma {:induction false} SendingDone(sending: nat, pipe: seq<Command>, senders: seq<Sender>)
    requires SendingOk(sending, pipe, 1, senders)
    ensures sending > 0 && SendingOk(sending - 1, pipe, 0, senders)
  {
    assert Shown(0);
  }

  // --------------------------------------------------------------- the order

  /** The serial numbers of one sender's packets of one priority. */
  function Serials(ps: seq<Packet>, u: nat, priority: Priority): seq<nat> {
    if ps == [] then []
    else
      var p := ps[|ps| - 1];
      Serials(ps[..|ps| - 1], u, priority) + if p.sender == u && p.priority == priority then [p.serial] else []
  }

  function PipePackets(pipe: seq<Command>): seq<Packet> {
    if pipe == [] then []
    else PipePackets(pipe[..|pipe| - 1]) + if pipe[|pipe| - 1].Send? then [pipe[|pipe| - 1].p] else []
  }

  function DwPackets(dw: Option<Buffer>): seq<Packet> { if dw.Some? then [dw.value.packet] else [] }

  function HandPackets(server: Server): seq<Packet> { if server.Taking? then [server.p] else [] }

  /** All packets that the socket has, in the order in which they are or will be written. */
  function Line(s: Socket): seq<Packet> {
    s.complete + DwPackets(s.dw) + PacketsOf(s.high) + PacketsOf(s.low) + HandPackets(s.server) + PipePackets(s.pipe)
  }

  predicate Increasing(ns: seq<nat>, bound: nat) {
    && (forall i, j :: 0 <= i < j < |ns| ==> ns[i] < ns[j])
    && forall i :: 0 <= i < |ns| ==> ns[i] < bound
  }

  /** The packets of each sender are in line in the order of its calls, priority by priority. */
  ghost predicate InOrder(line: seq<Packet>, u: nat, priority: Priority, bound: nat) {
    forall k :: Shown(k) ==> Increasing(Serials(line, u, priority), bound)
  }

  lemma {:induction false} SerialsConcat(a: seq<Packet>, b: seq<Packet>, u: nat, priority: Priority)
    ensures Serials(a + b, u, priority) == Serials(a, u, priority) + Serials(b, u, priority)
  {
    if b == [] {
      assert a + b == a;
    } else {
      assert (a + b)[..|a + b| - 1] == a + b[..|b| - 1];
      SerialsConcat(a, b[..|b| - 1], u, priority);
    }
  }

  lemma {:induction false} IncreasingAppend(ns: seq<nat>, n: nat)
    requires Increasing(ns, n)
    ensures Increasing(ns + [n], n + 1)
  {
  }

  lemma {:induction false} IncreasingCut(a: seq<nat>, b: seq<nat>, c: seq<nat>, bound: nat)
    requires Increasing(a + b + c, bound)
    ensures Increasing(a + c, bound)
  {
    forall i, j | 0 <= i < j < |a + c|
      ensures (a + c)[i] < (a + c)[j]
    {
      var i', j' := if i < |a| then i else i + |b|, if j < |a| then j else j + |b|;
      assert (a + b + c)[i'] < (a + b + c)[j'];
    }
    forall i | 0 <= i < |a + c|
      ensures (a + c)[i] < bound
    {
      var i' := if i < |a| then i else i + |b|;
      assert (a + b + c)[i'] < bound;
    }
  }

  lemma {:induction false} SerialsAround(a: seq<Packet>, b: seq<Packet>, p: Packet, u: nat, priority: Priority)
    ensures Serials(a + b, u, priority) == Serials(a, u, priority) + Serials(b, u, priority)
    ensures Serials(a + [p] + b, u, priority)
            == if p.sender == u && p.priority == priority
               then Serials(a, u, priority) + [p.serial] + Serials(b, u, priority) else Serials(a + b, u, priority)
  {
    SerialsConcat(a, b, u, priority);
    SerialsConcat(a + [p], b, u, priority);
    SerialsConcat(a, [p], u, priority);
    var one := Serials([p], u, priority);
    assert [p][..0] == [];
    assert one == if p.sender == u && p.priority == priority then [p.serial] else [];
    assert Serials(a, u, priority) + [] == Serials(a, u, priority);
  }

  /** A packet joins after `a`; what is behind has no packet of this sender and priority. */
  lemma {:induction false} OrderAppend(a: seq<Packet>, b: seq<Packet>, p: Packet, u: nat, priority: Priority,
                                       bound: nat)
    requires InOrder(a + b, u, priority, bound)
    requires p.sender == u && p.priority == priority ==> Serials(b, u, priority) == [] && bound <= p.serial
    ensures InOrder(a + [p] + b, u, priority, if p.sender == u && bound <= p.serial then p.serial + 1 else bound)
  {
    assert Shown(0);
    SerialsAround(a, b, p, u, priority);
    hide Serials, Increasing;
    var before := Serials(a, u, priority);
    if p.sender == u && p.priority == priority {
      assert before + [] == before && before + [p.serial] + [] == before + [p.serial];
      IncreasingMore(before, bound, p.serial);
      IncreasingAppend(before, p.serial);
    } else if p.sender == u && bound <= p.serial {
      IncreasingMore(Serials(a + b, u, priority), bound, p.serial + 1);
    }
  }

  lemma {:induction false} IncreasingMore(ns: seq<nat>, bound: nat, more: nat)
    requires Increasing(ns, bound) && bound <= more
    ensures Increasing(ns, more)
  {
  }

  lemma {:induction false} OrderMore(line: seq<Packet>, u: nat, priority: Priority, bound: nat, more: nat)
    requires InOrder(line, u, priority, bound) && bound <= more
    ensures InOrder(line, u, priority, more)
  {
    assert Shown(0);
    IncreasingMore(Serials(line, u, priority), bound, more);
  }

  lemma {:induction false} OrderCut(a: seq<Packet>, b: seq<Packet>, c: seq<Packet>, u: nat, priority: Priority,
                                    bound: nat)
    requires InOrder(a + b + c, u, priority, bound)
    ensures InOrder(a + c, u, priority, bound)
  {
    assert Shown(0);
    SerialsConcat(a + b, c, u, priority);
    SerialsConcat(a, b, u, priority);
    SerialsConcat(a, c, u, priority);
    IncreasingCut(Serials(a, u, priority), Serials(b, u, priority), Serials(c, u, priority), bound);
  }

  // ------------------------------------------------------------ conservation

  ghost predicate Conserved(taken: seq<Packet>, line: seq<Packet>, early: seq<Packet>, lost: seq<Packet>) {
    forall k :: Shown(k) ==> multiset(taken) == multiset(line) + multiset(early) + multiset(lost)
  }

  // ------------------------------------------------------------ event order

  function Closes(events: seq<Event>): nat {
    if events == [] then 0 else Closes(events[..|events| - 1]) + if events[|events| - 1] == EvClose then 1 else 0
  }

  predicate DataBeforeClose(events: seq<Event>) {
    events == [] ||
      (DataBeforeClose(events[..|events| - 1])
       && (events[|events| - 1] == EvData ==> Closes(events[..|events| - 1]) == 0))
  }

  ghost predicate EventsOk(events: seq<Event>, n: nat) {
    forall k :: Shown(k) ==> Closes(events) == n && DataBeforeClose(events)
  }

  lemma {:induction false} EventsAppend(events: seq<Event>, n: nat, e: Event)
    requires EventsOk(events, n) && (e == EvData ==> n == 0)
    ensures EventsOk(events + [e], if e == EvClose then n + 1 else n)
  {
    assert Shown(0);
    assert (events + [e])[..|events|] == events;
  }

  // --------------------------------------------------------- the invariant

  /** Only the first buffer in line is partly written; low priority waits in the low list. */
  ghost predicate ListsOk(dw: Option<Buffer>, high: seq<Buffer>, low: seq<Buffer>) {
    forall k :: Shown(k) ==>
      && (forall i :: 0 <= i < |low| ==> low[i].Whole() && low[i].packet.priority == PriorityLow)
      && (forall i :: 0 < i < |high| ==> high[i].Whole())
      && (dw.Some? && high != [] ==> high[0].Whole())
  }

  /** Nothing of this sender's high priority packets is among these. */
  ghost predicate NoneOf(ps: seq<Packet>, u: nat) { forall k :: Shown(k) ==> Serials(ps, u, PriorityHigh) == [] }

  ghost predicate AllWhole(high: seq<Buffer>) {
    forall k :: Shown(k) ==> forall i :: 0 <= i < |high| ==> high[i].Whole()
  }

  predicate Live(s: Socket) { s.kind != Invalid && !s.server.Freeing? }

  predicate ServerOk(s: Socket) {
    && (s.server.FlushHigh? || s.server.FlushLow? ==> s.lock == ByServer && s.dw == None && Polled(s))
    && (s.server.FlushLow? ==> s.high == [])
    && (s.server.Freeing? ==> s.kind != Invalid && Empty(s))
    && (s.server.CheckClose? ==> s.kind != Invalid && (s.server.wasRead <==> s.kind == HalfcloseRead))
    && (s.server.CheckRare? ==> s.kind != Invalid && s.closing)
    && (s.lock == ByServer ==> s.server.FlushHigh? || s.server.FlushLow? || s.server.Freeing?)
    && (s.lock.BySender? ==> s.lock.u < |s.senders|)
    && (s.kind == Invalid ==> Empty(s) && s.dw == None)
    && (s.closing ==> s.kind == HalfcloseRead || s.kind == Invalid)
    && (s.dw.Some? ==> s.dw.value.Valid())
  }

  ghost predicate CountsOk(s: Socket) {
    && SendingOk(s.sending, s.pipe, InHand(s.server), s.senders)
    && (Live(s) ==> WbOk(s.wbSize, s.high, s.low))
  }

  ghost predicate BytesOk(s: Socket) {
    && (s.high != [] ==> s.high[0].Valid())
    && (s.dw.Some? ==> s.dw.value.Valid())
    && match s.cut
       case None => !s.late && Framed(s.bytes, s.complete, Front(s.dw, s.high))
       case Some(b) =>
         && !Live(s) && b.Valid() && !b.Whole()
         && (!s.late ==> (s.dw.Some? ==> s.dw.value.Whole()) && Framed(s.bytes, s.complete, b.Written()))
  }

  ghost predicate ClosesOk(s: Socket) {
    || EventsOk(s.events, 0)
    || (EventsOk(s.events, 1) && (s.kind == HalfcloseRead || s.kind == Invalid)
        && (s.server.Freeing? ==> !s.server.raise))
  }

  predicate Open(s: Socket) { Live(s) && s.kind != HalfcloseWrite && !s.closing }

  ghost predicate KeptOk(s: Socket) {
    && Conserved(s.taken, Line(s), s.early, s.lost)
    && (Open(s) ==> s.lost == [])
  }

  function Coming(s: Socket): seq<Packet> { HandPackets(s.server) + PipePackets(s.pipe) }

  predicate Locked(x: SenderState) {
    (x.Check? && x.locked) || x.Write? || x.Unlock? || x.UnlockToQueue?
  }

  /** The packet that a sender has not yet handed over. */
  function Holding(x: SenderState): Option<Packet> {
    match x
    case Start(p) => Some(p)
    case Check(p, _, _) => Some(p)
    case Write(p) => Some(p)
    case UnlockToQueue(p) => Some(p)
    case Queue(p) => Some(p)
    case Insert(p) => Some(p)
    case _ => None
  }

  /** Has the second check seen the high list empty? */
  predicate SeenHigh(x: SenderState) {
    x.Write? || (x.Check? && x.locked && x.stage != LoadHigh && x.stage != LoadHalf && x.stage != LoadType(true))
  }

  predicate SeenDw(x: SenderState) {
    x.Write? || (x.Check? && x.locked && (x.stage == LoadSending || x.stage == LoadType(false)))
  }

  /** Has a check seen that nothing is on its way? */
  predicate SeenSending(x: SenderState) { x.Write? || (x.Check? && (x.locked || x.stage == LoadType(false))) }

  ghost predicate SenderOk(s: Socket, u: nat, x: SenderState, calls: nat) {
    && (Locked(x) <==> s.lock == BySender(u))
    && (Holding(x).Some? ==> Holding(x).value.sender == u && Holding(x).value.serial + 1 == calls)
    && (x.Check? || x.Write? ==> x.p.priority == PriorityHigh)
    && (SeenSending(x) ==> NoneOf(Coming(s), u))
    && (SeenHigh(x) ==> AllWhole(s.high) && NoneOf(PacketsOf(s.high), u))
    && (SeenDw(x) ==> s.dw == None)
    && (x.Check? && x.stage == LoadType(true) ==> s.kind == HalfcloseWrite || s.kind == Invalid)
    && (x.Write? ==> s.kind != Invalid)
  }

  ghost predicate SendersOk(s: Socket) {
    forall u :: 0 <= u < |s.senders| ==> SenderOk(s, u, s.senders[u].state, s.senders[u].calls)
  }

  /** All packets of a sender in line come before the one it holds. */
  function Bound(senders: seq<Sender>, u: nat): nat {
    if u >= |senders| then 0
    else match Holding(senders[u].state)
      case Some(p) => p.serial
      case None => senders[u].calls
  }

  ghost predicate OrderOk(s: Socket) {
    forall u: nat, priority :: InOrder(Line(s), u, priority, Bound(s.senders, u))
  }

  ghost predicate Inv(s: Socket) {
    match s
    case Socket(_, _, _, _, _, _, _, _, _, _, _, _, _, _, _, _, _, _, _) => forall k :: Opened(k) ==>
      && ListsOk(s.dw, s.high, s.low) && ServerOk(s) && CountsOk(s) && BytesOk(s) && ClosesOk(s) && KeptOk(s)
      && SendersOk(s) && OrderOk(s)
  }
}
