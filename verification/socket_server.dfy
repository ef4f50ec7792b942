/** The steps of the socket thread keep the invariant. */
module SocketServer {
  import opened Basics
  import opened SocketSystem
  import opened SocketInvariant
  import opened SocketSenders

  /** A step of the socket thread touches nothing that a sender relies on. */
  lemma {:induction false} SendersStay(s: Socket, t: Socket)
    requires SendersOk(s) && t.senders == s.senders
    requires t.lock == s.lock || (!s.lock.BySender? && !t.lock.BySender?)
    requires s.kind == HalfcloseWrite || s.kind == Invalid ==> t.kind == HalfcloseWrite || t.kind == Invalid
    requires t.kind == Invalid ==> s.kind == Invalid || !s.lock.BySender?
    requires forall u: nat :: NoneOf(Coming(s), u) ==> NoneOf(Coming(t), u)
    requires s.lock.BySender? ==> (s.dw == None ==> t.dw == None)
    requires s.lock.BySender? && AllWhole(s.high) ==> AllWhole(t.high)
    requires s.lock.BySender? ==>
               forall u: nat :: NoneOf(Coming(s), u) && NoneOf(PacketsOf(s.high), u) ==> NoneOf(PacketsOf(t.high), u)
    ensures SendersOk(t)
  {
    forall v | 0 <= v < |t.senders| ensures SenderOk(t, v, t.senders[v].state, t.senders[v].calls) {
      assert SenderOk(s, v, s.senders[v].state, s.senders[v].calls);
    }
  }

  lemma {:induction false} SameOrder(s: Socket, t: Socket)
    requires OrderOk(s) && Line(t) == Line(s) && t.senders == s.senders
    ensures OrderOk(t)
  {
    OrderKept(s, t);
  }

  // ---------------------------------------------------------- from the pipe

  lemma {:induction false} PipeFirst(pipe: seq<Command>)
    requires pipe != []
    ensures PipePackets(pipe) == (if pipe[0].Send? then [pipe[0].p] else []) + PipePackets(pipe[1..])
  {
    var m := |pipe| - 1;
    if m == 0 {
      assert pipe[..0] == pipe[1..] == [];
    } else {
      PipeFirst(pipe[..m]);
      assert pipe[..m][1..] == pipe[1..][..m - 1];
    }
  }

  /** The line does not change when the head of the pipe comes into the socket thread's hand. */
  lemma {:induction false} TakeLine(s: Socket, t: Socket)
    requires s.pipe != [] && s.server == Ready && t.pipe == s.pipe[1..]
    requires t.server == if s.pipe[0].Send? then Taking(s.pipe[0].p) else t.server
    requires !s.pipe[0].Send? ==> !t.server.Taking?
    requires t.complete == s.complete && t.dw == s.dw && t.high == s.high && t.low == s.low
    ensures Line(t) == Line(s) && Coming(t) == Coming(s)
  {
    PipeFirst(s.pipe);
    var a := s.complete + DwPackets(s.dw) + PacketsOf(s.high) + PacketsOf(s.low);
    var x := if s.pipe[0].Send? then [s.pipe[0].p] else [];
    assert HandPackets(t.server) == x;
    assert a + [] + (x + PipePackets(t.pipe)) == a + x + PipePackets(t.pipe);
    assert [] + (x + PipePackets(t.pipe)) == x + PipePackets(t.pipe);
  }

  /** Taking any command off the pipe. */
  lemma {:induction false} TakeKeeps(s: Socket, server: Server)
    requires Inv(s) && s.pipe != [] && s.server == Ready
    requires if s.pipe[0].Send? then server == Taking(s.pipe[0].p)
             else server == Ready || (server == CheckClose(s.kind == HalfcloseRead,
               Empty(s) && s.dw == None) && s.kind != Invalid)
    ensures Inv(s.(pipe := s.pipe[1..], server := server))
  {
    Unfold(s);
    var t := s.(pipe := s.pipe[1..], server := server);
    TakeLine(s, t);
    SendingTake(s.sending, s.pipe, s.senders);
    SameOrder(s, t);
    SendersStay(s, t);
  }

  /** Events and changes of the socket's type. */
  lemma {:induction false} KindKeeps(s: Socket, kind: SocketType, closing: bool, events: seq<Event>, server: Server)
    requires Inv(s) && s.kind != Invalid && kind != Invalid && !s.server.Freeing? && !s.server.Taking?
             && !s.server.Counting?
    requires server == s.server || (server == Ready && !s.lock.ByServer?)
    requires server.CheckClose? || server.CheckRare? ==> kind == s.kind
    requires server.FlushHigh? || server.FlushLow? ==> kind != Connecting
    requires s.kind == HalfcloseWrite ==> kind == HalfcloseWrite
    requires closing ==> kind == HalfcloseRead
    requires s.closing ==> closing
    requires s.kind == HalfcloseRead ==> kind == HalfcloseRead
    requires ClosesOk(s.(kind := kind, events := events, server := server))
    ensures Inv(s.(kind := kind, closing := closing, events := events, server := server))
  {
    Unfold(s);
    var t := s.(kind := kind, closing := closing, events := events, server := server);
    assert Line(t) == Line(s) && Coming(t) == Coming(s);
    SameOrder(s, t);
    SendersStay(s, t);
  }

  lemma {:induction false} EventKeeps(s: Socket, e: Event)
    requires Inv(s) && s.server == Ready && e != EvClose
    requires e == EvData ==> s.kind != HalfcloseRead && s.kind != Invalid
    ensures Inv(s.(events := s.events + [e]))
  {
    Unfold(s);
    var t := s.(events := s.events + [e]);
    if EventsOk(s.events, 0) { EventsAppend(s.events, 0, e); } else { EventsAppend(s.events, 1, e); }
    assert Line(t) == Line(s) && Coming(t) == Coming(s);
    SameOrder(s, t);
    SendersStay(s, t);
  }

  // ------------------------------------------------------------ send_socket

  lemma {:induction false} BuffersMore(list: seq<Buffer>, p: Packet)
    ensures PacketsOf(list + [Buffer(p, 0)]) == PacketsOf(list) + [p]
  {
    assert (list + [Buffer(p, 0)])[..|list|] == list;
  }

  lemma {:induction false} CountingKeeps(s: Socket)
    requires Inv(s) && s.server == Counting
    ensures s.sending > 0 && Inv(s.(sending := s.sending - 1, server := Ready))
  {
    hide Inv, Framed, WbOk, SendingOk, InOrder, Conserved, EventsOk, ListsOk, NoneOf, AllWhole;
    Unfold(s);
    SendingDone(s.sending, s.pipe, s.senders);
    var t := s.(sending := s.sending - 1, server := Ready);
    assert Line(t) == Line(s) && Coming(t) == Coming(s);
    SameOrder(s, t);
    SendersStay(s, t);
    Fold(t);
  }

  /** The line loses a part. */
  lemma {:induction false} LineCut(s: Socket, t: Socket, a: seq<Packet>, b: seq<Packet>, c: seq<Packet>)
    requires OrderOk(s) && Line(s) == a + b + c && Line(t) == a + c && t.senders == s.senders
    ensures OrderOk(t)
  {
    forall u: nat, priority ensures InOrder(Line(t), u, priority, Bound(t.senders, u)) {
      assert InOrder(Line(s), u, priority, Bound(s.senders, u));
      OrderCut(a, b, c, u, priority, Bound(s.senders, u));
    }
  }

  lemma {:induction false} Refused(taken: seq<Packet>, a: seq<Packet>, p: Packet, c: seq<Packet>, early: seq<Packet>,
                                   lost: seq<Packet>)
    requires Conserved(taken, a + [p] + c, early, lost)
    ensures Conserved(taken, a + c, early + [p], lost) && Conserved(taken, a + c, early, lost + [p])
  {
    assert Shown(0);
  }

  lemma {:induction false} NoneTail(p: Packet, ps: seq<Packet>, u: nat)
    requires NoneOf([p] + ps, u)
    ensures NoneOf(ps, u) && (p.sender == u ==> p.priority == PriorityLow)
  {
    assert Shown(0);
    SerialsConcat([p], ps, u, PriorityHigh);
    assert [p][..0] == [];
  }

  /** Whatever becomes of the packet in hand, it is no longer coming. */
  lemma {:induction false} ComingLess(s: Socket, t: Socket, p: Packet)
    requires s.server == Taking(p) && t.server == Counting && t.pipe == s.pipe
    ensures forall u: nat ::
              NoneOf(Coming(s), u) ==> NoneOf(Coming(t), u) && (p.sender == u ==> p.priority == PriorityLow)
  {
    assert Coming(s) == [p] + PipePackets(s.pipe) && Coming(t) == PipePackets(s.pipe);
    forall u: nat | NoneOf(Coming(s), u) ensures NoneOf(Coming(t), u) && (p.sender == u ==> p.priority == PriorityLow) {
      NoneTail(p, PipePackets(s.pipe), u);
    }
  }

  lemma {:induction false} RefuseLine(s: Socket, t: Socket, p: Packet)
    requires OrderOk(s) && KeptOk(s) && s.server == Taking(p)
    requires t == s.(server := Counting, early := s.early + [p]) || t == s.(server := Counting, lost := s.lost + [p])
    ensures OrderOk(t) && Conserved(t.taken, Line(t), t.early, t.lost)
  {
    var a := s.complete + DwPackets(s.dw) + PacketsOf(s.high) + PacketsOf(s.low);
    var c := PipePackets(s.pipe);
    assert a + [] == a;
    LineCut(s, t, a, [p], c);
    Refused(s.taken, a, p, c, s.early, s.lost);
  }

  lemma {:induction false} RefuseStep(s: Socket, t: Socket, p: Packet)
    requires Inv(s) && s.server == Taking(p)
    requires t == s.(server := Counting, early := s.early + [p])
             || (t == s.(server := Counting, lost := s.lost + [p]) && !Open(s))
    ensures Inv(t)
  {
    hide Inv, Framed, WbOk, SendingOk, InOrder, Conserved, EventsOk, ListsOk, NoneOf, AllWhole;
    Unfold(s);
    ComingLess(s, t, p);
    RefuseLine(s, t, p);
    SendersStay(s, t);
    Fold(t);
  }

  lemma {:induction false} RefuseKeeps(s: Socket, p: Packet)
    requires Inv(s) && s.server == Taking(p)
    requires s.kind == PAccept || s.kind == Invalid || s.kind == HalfcloseWrite || s.closing
    ensures Inv(TakePacket(s, p))
  {
    var t := TakePacket(s, p);
    assert t == s.(server := Counting, early := s.early + [p]) || t == s.(server := Counting, lost := s.lost + [p]);
    RefuseStep(s, t, p);
  }

  /** The line when a packet moves from the hand to one of the lists: only packets of
      the other priority are overtaken. */
  lemma {:induction false} OrderSwap(a: seq<Packet>, b: seq<Packet>, p: Packet, c: seq<Packet>, u: nat,
                                     priority: Priority, bound: nat)
    requires InOrder(a + b + [p] + c, u, priority, bound)
    requires Serials(b, u, PriorityHigh) == [] && (p.priority == PriorityHigh || b == [])
    ensures InOrder(a + [p] + b + c, u, priority, bound)
  {
    assert Shown(0);
    SerialsConcat(a + b + [p], c, u, priority);
    SerialsConcat(a + b, [p], u, priority);
    SerialsConcat(a, b, u, priority);
    SerialsConcat(a + [p] + b, c, u, priority);
    SerialsConcat(a + [p], b, u, priority);
    SerialsConcat(a, [p], u, priority);
    var x, y := Serials(b, u, priority), Serials([p], u, priority);
    assert [p][..0] == [] && Serials([], u, priority) == [];
    assert x == [] || y == [];
    if x == [] {
      assert Serials(a, u, priority) + [] + y == Serials(a, u, priority) + y + [];
    } else {
      assert Serials(a, u, priority) + x + [] == Serials(a, u, priority) + [] + x;
    }
  }

  lemma {:induction false} Swapped(taken: seq<Packet>, a: seq<Packet>, b: seq<Packet>, p: Packet, c: seq<Packet>,
                                   early: seq<Packet>, lost: seq<Packet>)
    requires Conserved(taken, a + b + [p] + c, early, lost)
    ensures Conserved(taken, a + [p] + b + c, early, lost)
  {
    assert Shown(0);
  }

  lemma {:induction false} ListsMore(dw: Option<Buffer>, high: seq<Buffer>, low: seq<Buffer>, p: Packet)
    requires ListsOk(dw, high, low)
    ensures ListsOk(dw, high + [Buffer(p, 0)], low)
    ensures p.priority == PriorityLow ==> ListsOk(dw, high, low + [Buffer(p, 0)])
    ensures AllWhole(high) ==> AllWhole(high + [Buffer(p, 0)])
    ensures ((dw.Some? ==> dw.value.Valid()) && (high != [] ==> high[0].Valid()))
            ==> ((high + [Buffer(p, 0)])[0].Valid() && Front(dw, high + [Buffer(p, 0)]) == Front(dw, high))
  {
    assert Shown(0);
  }

  lemma {:induction false} AppendHighLine(s: Socket, t: Socket, p: Packet)
    requires OrderOk(s) && KeptOk(s) && ListsOk(s.dw, s.high, s.low) && s.server == Taking(p)
    requires t == s.(server := Counting, wbSize := t.wbSize, high := s.high + [Buffer(p, 0)])
    requires Empty(s) || p.priority == PriorityHigh
    ensures OrderOk(t) && Conserved(t.taken, Line(t), t.early, t.lost)
  {
    var a := s.complete + DwPackets(s.dw) + PacketsOf(s.high);
    var b, c := PacketsOf(s.low), PipePackets(s.pipe);
    BuffersMore(s.high, p);
    assert Line(s) == a + b + [p] + c;
    assert Line(t) == a + [p] + b + c by {
      assert s.complete + DwPackets(s.dw) + (PacketsOf(s.high) + [p]) == a + [p];
      assert a + [p] + b + [] == a + [p] + b;
    }
    forall u: nat, priority ensures InOrder(Line(t), u, priority, Bound(t.senders, u)) {
      assert InOrder(Line(s), u, priority, Bound(s.senders, u));
      LowHasNoHigh(s.dw, s.high, s.low, u);
      assert Shown(0);
      OrderSwap(a, b, p, c, u, priority, Bound(s.senders, u));
    }
    Swapped(s.taken, a, b, p, c, s.early, s.lost);
  }

  lemma {:induction false} AppendLowLine(s: Socket, t: Socket, p: Packet)
    requires s.server == Taking(p) && t == s.(server := Counting, wbSize := t.wbSize, low := s.low + [Buffer(p, 0)])
    ensures Line(t) == Line(s)
  {
    BuffersMore(s.low, p);
    var a := s.complete + DwPackets(s.dw) + PacketsOf(s.high);
    var b, c := PacketsOf(s.low), PipePackets(s.pipe);
    assert a + (b + [p]) + [] + c == a + b + [p] + c;
  }

  lemma {:induction false} AppendSenders(s: Socket, t: Socket, p: Packet)
    requires SendersOk(s) && ListsOk(s.dw, s.high, s.low) && s.server == Taking(p)
    requires t == s.(server := Counting, wbSize := t.wbSize, high := t.high, low := t.low)
    requires t.high == s.high || t.high == s.high + [Buffer(p, 0)]
    ensures SendersOk(t)
  {
    ComingLess(s, t, p);
    ListsMore(s.dw, s.high, s.low, p);
    BuffersMore(s.high, p);
    forall u: nat | NoneOf(Coming(s), u) && NoneOf(PacketsOf(s.high), u) ensures NoneOf(PacketsOf(t.high), u) {
      NonePlus(PacketsOf(s.high), p, u);
    }
    SendersStay(s, t);
  }

  lemma {:induction false} AppendHighKeeps(s: Socket, t: Socket, p: Packet)
    requires Inv(s) && s.server == Taking(p) && Live(s)
    requires t == s.(server := Counting, wbSize := s.wbSize + |p.data|, high := s.high + [Buffer(p, 0)])
    requires Empty(s) || p.priority == PriorityHigh
    ensures Inv(t)
  {
    Unfold(s);
    WbAppend(s.wbSize, s.high, s.low, p);
    ListsMore(s.dw, s.high, s.low, p);
    AppendHighLine(s, t, p);
    AppendSenders(s, t, p);
  }

  lemma {:induction false} AppendLowKeeps(s: Socket, t: Socket, p: Packet)
    requires Inv(s) && s.server == Taking(p) && Live(s) && p.priority == PriorityLow
    requires t == s.(server := Counting, wbSize := s.wbSize + |p.data|, low := s.low + [Buffer(p, 0)])
    ensures Inv(t)
  {
    Unfold(s);
    WbAppend(s.wbSize, s.high, s.low, p);
    ListsMore(s.dw, s.high, s.low, p);
    AppendLowLine(s, t, p);
    SameOrder(s, t);
    AppendSenders(s, t, p);
  }

  lemma {:induction false} NonePlus(ps: seq<Packet>, p: Packet, u: nat)
    requires NoneOf(ps, u) && (p.sender == u ==> p.priority == PriorityLow)
    ensures NoneOf(ps + [p], u)
  {
    assert Shown(0);
    assert (ps + [p])[..|ps|] == ps;
  }

  lemma {:induction false} TakePacketKeeps(s: Socket, p: Packet)
    requires Inv(s) && s.server == Taking(p)
    ensures Inv(TakePacket(s, p))
  {
    if s.kind == PAccept || s.kind == Invalid || s.kind == HalfcloseWrite || s.closing {
      RefuseKeeps(s, p);
    } else if Empty(s) || p.priority == PriorityHigh {
      AppendHighKeeps(s, TakePacket(s, p), p);
    } else {
      AppendLowKeeps(s, TakePacket(s, p), p);
    }
  }

  // ------------------------------------------------------------ force_close

  lemma {:induction false} LostMore(taken: seq<Packet>, a: seq<Packet>, b: seq<Packet>, c: seq<Packet>,
                                    early: seq<Packet>, lost: seq<Packet>)
    requires Conserved(taken, a + b + c, early, lost)
    ensures Conserved(taken, a + c, early, lost + b)
  {
    assert Shown(0);
  }

  lemma {:induction false} FreeLine(s: Socket, t: Socket)
    requires OrderOk(s) && KeptOk(s) && !s.server.Taking?
    requires t.high == [] && t.low == [] && t.complete == s.complete && t.dw == s.dw && t.pipe == s.pipe
             && t.senders == s.senders
    requires !t.server.Taking? && t.taken == s.taken && t.early == s.early
             && t.lost == s.lost + PacketsOf(s.high) + PacketsOf(s.low)
    ensures OrderOk(t) && Conserved(t.taken, Line(t), t.early, t.lost)
  {
    var a, b, c := s.complete + DwPackets(s.dw), PacketsOf(s.high) + PacketsOf(s.low), PipePackets(s.pipe);
    assert Line(s) == a + b + c by { assert a + PacketsOf(s.high) + PacketsOf(s.low) + [] == a + b; }
    assert Line(t) == a + c by { assert a + [] + [] + [] == a; }
    LineCut(s, t, a, b, c);
    LostMore(s.taken, a, b, c, s.early, s.lost);
    assert s.lost + b == t.lost;
  }

  lemma {:induction false} NoLists(dw: Option<Buffer>)
    ensures ListsOk(dw, [], []) && AllWhole([])
    ensures forall u: nat :: NoneOf(PacketsOf([]), u)
  {
  }

  lemma {:induction false} CutBytes(s: Socket, t: Socket)
    requires BytesOk(s) && ListsOk(s.dw, s.high, s.low) && s.cut == None
    requires t.high == [] && t.dw == s.dw && t.bytes == s.bytes && t.complete == s.complete && t.late == s.late
    requires t.cut == (if s.high != [] && !s.high[0].Whole() then Some(s.high[0]) else s.cut) && t.server.Freeing?
    ensures BytesOk(t)
  {
    assert Shown(0);
    if s.high != [] && s.dw == None && s.high[0].Whole() {
      assert s.high[0].Written() == [];
    }
  }

  lemma {:induction false} FreeListsKeeps(s: Socket, raise: bool, error: bool)
    requires Inv(s) && Live(s) && !s.server.Taking? && !s.server.Counting?
    requires raise ==> s.kind != HalfcloseRead
    requires s.lock.ByServer? ==> s.dw == None
    ensures Inv(FreeLists(s, raise, error))
  {
    Unfold(s);
    var t := FreeLists(s, raise, error);
    FreeLine(s, t);
    NoLists(s.dw);
    CutBytes(s, t);
    assert Coming(t) == Coming(s);
    SendersStay(s, t);
  }

  lemma {:induction false} InvalidLine(s: Socket, t: Socket)
    requires OrderOk(s) && KeptOk(s) && s.server.Freeing? && Empty(s)
    requires t.high == s.high && t.low == s.low && t.complete == s.complete && t.dw == None && t.pipe == s.pipe
             && t.senders == s.senders
    requires t.server == Ready && t.taken == s.taken && t.early == s.early
    requires t.lost == s.lost + DwPackets(s.dw)
    ensures OrderOk(t) && Conserved(t.taken, Line(t), t.early, t.lost)
  {
    var c := PipePackets(s.pipe);
    assert Line(s) == s.complete + DwPackets(s.dw) + c by {
      assert s.complete + DwPackets(s.dw) + [] + [] + [] == s.complete + DwPackets(s.dw);
    }
    assert Line(t) == s.complete + c by { assert s.complete + [] + [] + [] + [] == s.complete; }
    LineCut(s, t, s.complete, DwPackets(s.dw), c);
    LostMore(s.taken, s.complete, DwPackets(s.dw), c, s.early, s.lost);
  }

  lemma {:induction false} InvalidEvents(events: seq<Event>, raise: bool, error: bool)
    requires EventsOk(events, 0) || (EventsOk(events, 1) && !raise)
    ensures var es := events + (if raise then [EvClose] else []) + (if error then [EvError] else []);
            EventsOk(es, 0) || EventsOk(es, 1)
  {
    var mid := events + if raise then [EvClose] else [];
    assert !raise ==> mid == events;
    if raise { EventsAppend(events, 0, EvClose); }
    if error {
      if EventsOk(mid, 0) { EventsAppend(mid, 0, EvError); } else { EventsAppend(mid, 1, EvError); }
    } else {
      assert mid + [] == mid;
    }
  }

  lemma {:induction false} InvalidBytes(s: Socket, t: Socket)
    requires BytesOk(s) && Empty(s) && t.high == [] && t.dw == None && t.kind == Invalid
    requires t.bytes == s.bytes && t.complete == s.complete && t.late == s.late
    requires t.cut == if s.dw.Some? && !s.dw.value.Whole() then s.dw else s.cut
    requires s.cut.Some? ==> !Live(s)
    ensures BytesOk(t)
  {
    assert Shown(0);
  }

  lemma {:induction false} StoreInvalidKeeps(s: Socket)
    requires Inv(s) && s.server.Freeing? && !s.lock.BySender?
    ensures Inv(StoreInvalid(s, s.server.raise, s.server.error))
  {
    Unfold(s);
    var t := StoreInvalid(s, s.server.raise, s.server.error);
    assert s.dw == None ==> s.lost + DwPackets(s.dw) == s.lost;
    InvalidLine(s, t);
    InvalidEvents(s.events, s.server.raise, s.server.error);
    InvalidBytes(s, t);
    NoLists(None);
    assert Coming(t) == Coming(s);
    SendersStay(s, t);
  }
}
