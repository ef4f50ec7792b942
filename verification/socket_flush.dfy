/** Flushing keeps the invariant, and what follows for every run. */
module SocketFlush {
  import opened Basics
  import opened SocketSystem
  import opened SocketInvariant
  import opened SocketSenders
  import opened SocketServer

  lemma {:induction false} BuffersFirst(list: seq<Buffer>)
    requires list != []
    ensures PacketsOf(list) == [list[0].packet] + PacketsOf(list[1..])
  {
    var m := |list| - 1;
    if m == 0 {
      assert list[..0] == list[1..] == [];
    } else {
      BuffersFirst(list[..m]);
      assert list[..m][1..] == list[1..][..m - 1];
    }
  }

  // ------------------------------------------------------- the lock is taken

  lemma {:induction false} BeginLine(s: Socket, t: Socket, b: Buffer)
    requires s.dw == Some(b) && t.dw == None && t.high == [b] + s.high
    requires t.complete == s.complete && t.low == s.low && HandPackets(t.server) == HandPackets(s.server)
             && t.pipe == s.pipe
    ensures Line(t) == Line(s)
  {
    BuffersFirst([b] + s.high);
    assert ([b] + s.high)[1..] == s.high;
    assert s.complete + [] + ([b.packet] + PacketsOf(s.high)) == s.complete + [b.packet] + PacketsOf(s.high);
  }

  lemma {:induction false} BeginLists(b: Buffer, high: seq<Buffer>, low: seq<Buffer>)
    requires ListsOk(Some(b), high, low)
    ensures ListsOk(None, [b] + high, low)
  {
    assert Shown(0);
    assert forall i :: 0 < i < |[b] + high| ==> ([b] + high)[i] == high[i - 1];
  }

  lemma {:induction false} BeginNoDwKeeps(s: Socket)
    requires Inv(s) && s.server == Ready && Polled(s) && s.lock == Free && s.dw == None
    ensures Inv(s.(lock := ByServer, server := FlushHigh))
  {
    Unfold(s);
    var t := s.(lock := ByServer, server := FlushHigh);
    assert Line(t) == Line(s) && Coming(t) == Coming(s);
    SameOrder(s, t);
    SendersStay(s, t);
  }

  lemma {:induction false} BeginDwKeeps(s: Socket, b: Buffer)
    requires Inv(s) && s.server == Ready && Polled(s) && s.lock == Free && s.dw == Some(b)
    ensures Inv(s.(lock := ByServer, server := FlushHigh).(high := [b] + s.high, dw := None,
                                                           wbSize := s.wbSize + (|b.packet.data| - b.sent)))
  {
    Unfold(s);
    var t := s.(lock := ByServer, server := FlushHigh).(high := [b] + s.high, dw := None,
                                                        wbSize := s.wbSize + (|b.packet.data| - b.sent));
    BeginLine(s, t, b);
    BeginLists(b, s.high, s.low);
    WbPush(s.wbSize, s.high, s.low, b);
    assert Coming(t) == Coming(s);
    SameOrder(s, t);
    SendersStay(s, t);
  }

  lemma {:induction false} LowIsWhole(s: Socket)
    requires ListsOk(s.dw, s.high, s.low) && s.low != []
    ensures s.low[0].Whole() && s.low[0].packet.priority == PriorityLow
  {
    assert Shown(0);
  }

  lemma {:induction false} NothingRaised(s: Socket)
    requires Inv(s)
    ensures s.low != [] ==> s.low[0].Whole()
  {
    Unfold(s);
    if s.low != [] { LowIsWhole(s); }
  }

  lemma {:induction false} BeginFlushKeeps(s: Socket)
    requires Inv(s) && s.server == Ready && Polled(s)
    ensures BeginFlush(s).Next? && Inv(BeginFlush(s).s)
  {
    hide Inv;
    if s.lock == Free {
      NothingRaised(s);
      if s.dw.None? { BeginNoDwKeeps(s); } else { BeginDwKeeps(s, s.dw.value); }
    }
  }

  // ---------------------------------------------------------------- writing

  /** After the lists changed under the socket thread's lock. */
  lemma {:induction false} FlushFinish(s: Socket, t: Socket)
    requires Inv(s) && (s.server.FlushHigh? || s.server.FlushLow?)
    requires t == s.(bytes := t.bytes, wbSize := t.wbSize, high := t.high, low := t.low, complete := t.complete,
                     server := t.server, lock := t.lock)
    requires || (t.server == Ready && t.lock == Free)
             || (t.server == s.server && t.lock == s.lock && (t.server.FlushLow? ==> t.high == []))
    requires Line(t) == Line(s) && ListsOk(None, t.high, t.low) && WbOk(t.wbSize, t.high, t.low)
    requires (t.high != [] ==> t.high[0].Valid()) && Framed(t.bytes, t.complete, Front(None, t.high))
    ensures Inv(t)
  {
    hide Inv, Framed, WbOk, SendingOk, InOrder, Conserved, EventsOk, ListsOk, NoneOf, AllWhole;
    Unfold(s);
    assert Coming(t) == Coming(s);
    SameOrder(s, t);
    SendersStay(s, t);
    Fold(t);
  }

  lemma {:induction false} EndKeeps(s: Socket)
    requires Inv(s) && (s.server.FlushHigh? || s.server.FlushLow?)
    ensures Inv(EndFlush(s))
  {
    Unfold(s);
    assert Line(EndFlush(s)) == Line(s);
    FlushFinish(s, EndFlush(s));
  }

  lemma {:induction false} ListsLess(high: seq<Buffer>, low: seq<Buffer>)
    requires ListsOk(None, high, low)
    ensures high != [] ==> ListsOk(None, high[1..], low)
    ensures high != [] ==> forall b: Buffer :: b.packet == high[0].packet ==> ListsOk(None, high[0 := b], low)
    ensures high != [] ==> AllWhole(high[1..])
    ensures low != [] ==> ListsOk(None, high, low[1..])
    ensures low != [] && high == [] ==> forall b: Buffer :: ListsOk(None, [b], low[1..])
  {
    assert Shown(0);
  }

  /** The bytes of one write of a buffer that is first in line. */
  lemma {:induction false} WriteBytes(bytes: seq<Byte>, complete: seq<Packet>, b: Buffer, n: nat)
    requires b.sent + n <= |b.packet.data| && Framed(bytes, complete, b.Written())
    ensures Framed(bytes + b.packet.data[b.sent..b.sent + n], complete, b.packet.data[..b.sent + n])
    ensures b.sent + n == |b.packet.data| ==>
              Framed(bytes + b.packet.data[b.sent..b.sent + n], complete + [b.packet], [])
  {
    FramedMore(bytes, complete, b.packet.data, b.sent, b.sent + n);
    if b.sent + n == |b.packet.data| {
      assert b.packet.data[..b.sent + n] == b.packet.data;
      FramedDone(bytes + b.packet.data[b.sent..b.sent + n], complete, b.packet);
    }
  }

  lemma {:induction false} WholeFront(high: seq<Buffer>)
    requires AllWhole(high)
    ensures high != [] ==> high[0].Valid()
    ensures (high != [] ==> high[0].Valid()) ==> Front(None, high) == []
  {
    assert Shown(0);
  }

  lemma {:induction false} DoneLine(c: seq<Packet>, p: Packet, h: seq<Packet>)
    ensures c + [p] + [] + h == c + [] + ([p] + h)
  {
  }

  lemma {:induction false} HighDoneKeeps(s: Socket, b: Buffer, n: nat)
    requires Inv(s) && s.server.FlushHigh? && s.high != [] && b == s.high[0] && b.sent + n == |b.packet.data|
    ensures Inv(HighDone(s, b, n))
  {
    Unfold(s);
    var t := HighDone(s, b, n);
    WbHead(s.wbSize, s.high, s.low);
    ListsLess(s.high, s.low);
    WholeFront(t.high);
    WriteBytes(s.bytes, s.complete, b, n);
    BuffersFirst(s.high);
    DoneLine(s.complete, b.packet, PacketsOf(t.high));
    FlushFinish(s, t);
  }

  lemma {:induction false} HeadChanged(high: seq<Buffer>, b: Buffer)
    requires high != [] && high[0].packet == b.packet
    ensures PacketsOf(high[0 := b]) == PacketsOf(high) && high[0 := b] == [b] + high[1..]
  {
    BuffersFirst(high);
    BuffersFirst(high[0 := b]);
    assert high[0 := b][1..] == high[1..];
  }

  lemma {:induction false} HighPartKeeps(s: Socket, b: Buffer, n: nat)
    requires Inv(s) && s.server.FlushHigh? && s.high != [] && b == s.high[0] && b.sent + n < |b.packet.data|
    ensures Inv(HighPart(s, b, n))
  {
    hide Inv, Framed, WbOk, SendingOk, InOrder, Conserved, EventsOk, ListsOk;
    Unfold(s);
    var b' := Buffer(b.packet, b.sent + n);
    var t := HighPart(s, b, n);
    ListsLess(s.high, s.low);
    WriteBytes(s.bytes, s.complete, b, n);
    HeadChanged(s.high, b');
    WbHead(s.wbSize, s.high, s.low);
    WbPush(s.wbSize - b.Unsent(), s.high[1..], s.low, b');
    FlushFinish(s, t);
  }

  lemma {:induction false} LowDoneKeeps(s: Socket, b: Buffer, n: nat)
    requires Inv(s) && s.server.FlushLow? && s.low != [] && b == s.low[0] && b.sent + n == |b.packet.data|
    ensures Inv(LowDone(s, b, n))
  {
    Unfold(s);
    var t := LowDone(s, b, n);
    LowIsWhole(s);
    WbHead(s.wbSize, s.high, s.low);
    ListsLess(s.high, s.low);
    assert b.Written() == [];
    WriteBytes(s.bytes, s.complete, b, n);
    BuffersFirst(s.low);
    LowLine(s.complete, b.packet, PacketsOf(t.low));
    FlushFinish(s, t);
  }

  lemma {:induction false} LowLine(c: seq<Packet>, p: Packet, l: seq<Packet>)
    ensures c + [p] + [] + [] + l == c + [] + [] + ([p] + l)
    ensures c + [] + [p] + l == c + [] + [] + ([p] + l)
  {
  }

  lemma {:induction false} RaiseLine(c: seq<Packet>, low: seq<Buffer>, b: Buffer)
    requires low != [] && low[0].packet == b.packet
    ensures [b] + [] == [b]
    ensures c + [] + PacketsOf([b]) + PacketsOf(low[1..]) == c + [] + [] + PacketsOf(low)
  {
    BuffersFirst(low);
    BuffersFirst([b]);
    assert [b][1..] == [] && [b.packet] + [] == [b.packet];
    LowLine(c, b.packet, PacketsOf(low[1..]));
  }

  /** raise_uncomplete: a partly sent head of the low list goes to the high list, which is empty. */
  lemma {:induction false} RaiseKeeps(s: Socket, b: Buffer, n: nat)
    requires Inv(s) && s.server.FlushLow? && s.low != [] && b == s.low[0] && b.sent + n < |b.packet.data|
    ensures s.high == []
    ensures Inv(LowPart(s, b, n))
  {
    hide Inv, Framed, WbOk, SendingOk, InOrder, Conserved, EventsOk, ListsOk;
    Unfold(s);
    var b' := Buffer(b.packet, b.sent + n);
    var t := LowPart(s, b, n);
    LowIsWhole(s);
    WbHead(s.wbSize, s.high, s.low);
    ListsLess(s.high, s.low);
    assert b.Written() == [];
    WriteBytes(s.bytes, s.complete, b, n);
    WbPush(s.wbSize - b.Unsent(), [], s.low[1..], b');
    RaiseLine(s.complete, s.low, b');
    FlushFinish(s, t);
  }

  lemma {:induction false} DrainedKeeps(s: Socket)
    requires Inv(s) && (s.server.FlushHigh? || s.server.FlushLow?) && s.high == [] && s.low == []
    ensures Drained(s).Next? && Inv(Drained(s).s)
  {
    Unfold(s);
    WbHead(s.wbSize, s.high, s.low);
    if s.closing { FreeListsKeeps(s, false, false); } else { EndKeeps(s); }
  }

  lemma {:induction false} CloseWriteKeeps(s: Socket)
    requires Inv(s) && (s.server.FlushHigh? || s.server.FlushLow?)
    ensures Inv(CloseWrite(s))
  {
    Unfold(s);
    if s.closing || s.kind == HalfcloseRead {
      FreeListsKeeps(s, false, false);
    } else if s.kind == HalfcloseWrite {
      EndKeeps(s);
    } else {
      EndKeeps(s);
      var t := EndFlush(s);
      Unfold(t);
      EventsAppend(s.events, 0, EvError);
      KindKeeps(t, HalfcloseWrite, false, s.events + [EvError], Ready);
    }
  }

  lemma {:induction false} WroteHighKeeps(s: Socket, n: nat)
    requires Inv(s) && s.server.FlushHigh? && s.high != []
    ensures !SendHigh(s, Wrote(n)).Fault? && (SendHigh(s, Wrote(n)).Next? ==> Inv(SendHigh(s, Wrote(n)).s))
  {
    var b := s.high[0];
    if b.sent + n == |b.packet.data| { HighDoneKeeps(s, b, n); }
    else if b.sent + n < |b.packet.data| { HighPartKeeps(s, b, n); }
  }

  lemma {:induction false} SendHighKeeps(s: Socket, r: WriteResult)
    requires Inv(s) && s.server.FlushHigh?
    ensures !SendHigh(s, r).Fault? && (SendHigh(s, r).Next? ==> Inv(SendHigh(s, r).s))
  {
    if s.high == [] {
      if s.low == [] { DrainedKeeps(s); } else { ToLowKeeps(s); }
    } else {
      match r
      case Again => EndKeeps(s);
      case Failed => CloseWriteKeeps(s);
      case Wrote(n) => WroteHighKeeps(s, n);
    }
  }

  lemma {:induction false} ToLowKeeps(s: Socket)
    requires Inv(s) && s.server.FlushHigh? && s.high == []
    ensures Inv(s.(server := FlushLow))
  {
    Unfold(s);
    var t := s.(server := FlushLow);
    assert Line(t) == Line(s) && Coming(t) == Coming(s);
    SameOrder(s, t);
    SendersStay(s, t);
  }

  lemma {:induction false} FlushLowHigh(s: Socket)
    requires Inv(s) && s.server.FlushLow?
    ensures s.high == []
  {
    Unfold(s);
  }

  lemma {:induction false} WroteLowKeeps(s: Socket, n: nat)
    requires Inv(s) && s.server.FlushLow? && s.low != []
    ensures !SendLow(s, Wrote(n)).Fault? && (SendLow(s, Wrote(n)).Next? ==> Inv(SendLow(s, Wrote(n)).s))
  {
    Unfold(s);
    var b := s.low[0];
    LowIsWhole(s);
    if b.sent + n == |b.packet.data| { LowDoneKeeps(s, b, n); }
    else if n == 0 { EndKeeps(s); }
    else if b.sent + n < |b.packet.data| { RaiseKeeps(s, b, n); }
  }

  lemma {:induction false} SendLowKeeps(s: Socket, r: WriteResult)
    requires Inv(s) && s.server.FlushLow?
    ensures !SendLow(s, r).Fault? && (SendLow(s, r).Next? ==> Inv(SendLow(s, r).s))
  {
    if s.low == [] {
      FlushLowHigh(s);
      DrainedKeeps(s);
    } else {
      match r
      case Again => EndKeeps(s);
      case Failed => CloseWriteKeeps(s);
      case Wrote(n) => WroteLowKeeps(s, n);
    }
  }

  // ------------------------------------------------- commands and readiness

  lemma {:induction false} CloseSocketKeeps(s: Socket, wasRead: bool, empty: bool)
    requires Inv(s) && s.server == CheckClose(wasRead, empty)
    ensures Inv(CloseSocket(s, wasRead, empty))
  {
    Unfold(s);
    if (empty && s.sending == 0) || s.kind == HalfcloseWrite {
      FreeListsKeeps(s, !wasRead, false);
    } else if wasRead {
      KindKeeps(s, s.kind, true, s.events, Ready);
    } else {
      EventsAppend(s.events, 0, EvClose);
      KindKeeps(s, HalfcloseRead, true, s.events + [EvClose], Ready);
    }
  }

  lemma {:induction false} RareKeeps(s: Socket, empty: bool)
    requires Inv(s) && s.server == CheckRare(empty)
    ensures Inv(FreeLists(s, false, false)) && Inv(s.(server := Ready))
  {
    Unfold(s);
    FreeListsKeeps(s, false, false);
    KindKeeps(s, s.kind, s.closing, s.events, Ready);
  }

  lemma {:induction false} ForwardKeeps(s: Socket, n: int)
    requires Inv(s) && s.server == Ready && Polled(s)
    ensures Forward(s, n).Next? && Inv(Forward(s, n).s)
  {
    Unfold(s);
    if n < 0 {
      EventKeeps(s, EvError);
    } else if n > 0 {
      if s.kind != HalfcloseRead { EventKeeps(s, EvData); }
    } else if s.closing {
      RareBegins(s);
    } else if s.kind == HalfcloseWrite {
      FreeListsKeeps(s, true, false);
    } else if s.kind != HalfcloseRead {
      EventsAppend(s.events, 0, EvClose);
      KindKeeps(s, HalfcloseRead, false, s.events + [EvClose], Ready);
    }
  }

  lemma {:induction false} RareBegins(s: Socket)
    requires Inv(s) && s.server == Ready && Polled(s) && s.closing
    ensures Inv(s.(server := CheckRare(Empty(s) && s.dw == None)))
  {
    Unfold(s);
    var t := s.(server := CheckRare(Empty(s) && s.dw == None));
    assert Line(t) == Line(s) && Coming(t) == Coming(s);
    SameOrder(s, t);
    SendersStay(s, t);
  }

  lemma {:induction false} ConnectKeeps(s: Socket, ok: bool)
    requires Inv(s) && s.server == Ready && s.kind == Connecting
    ensures Connect(s, ok).Next? && Inv(Connect(s, ok).s)
  {
    Unfold(s);
    if ok {
      EventsAppend(s.events, 0, EvOpen);
      KindKeeps(s, Connected, s.closing, s.events + [EvOpen], Ready);
    } else {
      FreeListsKeeps(s, false, true);
    }
  }

  lemma {:induction false} ResumeKeeps(s: Socket)
    requires Inv(s) && s.server == Ready
    ensures Obey(s, Resume).Next? && Inv(Obey(s, Resume).s)
  {
    Unfold(s);
    if s.kind == Invalid || s.kind == HalfcloseRead {
      EventKeeps(s, EvError);
    } else if s.kind == PAccept {
      EventsAppend(s.events, 0, EvOpen);
      KindKeeps(s, Connected, s.closing, s.events + [EvOpen], Ready);
    } else if s.kind == Connected {
      EventKeeps(s, EvOpen);
    }
  }

  lemma {:induction false} ObeyKeeps(s: Socket)
    requires Inv(s) && s.server == Ready && s.pipe != []
    ensures var o := Obey(s.(pipe := s.pipe[1..]), s.pipe[0]); o.Next? && Inv(o.s)
  {
    Unfold(s);
    var t := s.(pipe := s.pipe[1..]);
    match s.pipe[0]
    case Send(p) => TakeKeeps(s, Taking(p));
    case Trigger => TakeKeeps(s, Ready);
    case Close(shutdown) =>
      if s.kind == Invalid {
        TakeKeeps(s, Ready);
      } else if shutdown {
        TakeKeeps(s, Ready);
        Unfold(t);
        FreeListsKeeps(t, s.kind != HalfcloseRead, false);
      } else {
        TakeKeeps(s, CheckClose(s.kind == HalfcloseRead, Empty(s) && s.dw == None));
      }
    case Resume =>
      TakeKeeps(s, Ready);
      ResumeKeeps(t);
  }

  lemma {:induction false} ReadyStepKeeps(s: Socket, w: Wakeup)
    requires Inv(s) && s.server == Ready
    ensures !ServerStep(s, w).Fault? && (ServerStep(s, w).Next? ==> Inv(ServerStep(s, w).s))
  {
    Unfold(s);
    match w
    case TakeCommand => if s.pipe != [] { ObeyKeeps(s); }
    case OnRead(n) => if Polled(s) { ForwardKeeps(s, n); }
    case OnWrite => if Polled(s) { BeginFlushKeeps(s); }
    case OnEof => if Polled(s) { FreeListsKeeps(s, s.kind != HalfcloseRead, false); }
    case OnConnect(ok) => if s.kind == Connecting { ConnectKeeps(s, ok); }
    case GoOn(_) =>
  }

  lemma {:induction false} ServerKeeps(s: Socket, w: Wakeup)
    requires Inv(s)
    ensures !ServerStep(s, w).Fault? && (ServerStep(s, w).Next? ==> Inv(ServerStep(s, w).s))
  {
    hide Inv;
    match s.server
    case Ready => ReadyStepKeeps(s, w);
    case Taking(p) => TakePacketKeeps(s, p);
    case Counting => CountingKeeps(s);
    case CheckClose(wasRead, empty) => CloseSocketKeeps(s, wasRead, empty);
    case CheckRare(empty) => RareKeeps(s, empty);
    case FlushHigh => if w.GoOn? { SendHighKeeps(s, w.r); }
    case FlushLow => if w.GoOn? { SendLowKeeps(s, w.r); }
    case Freeing(raise, error) => if !s.lock.BySender? { StoreInvalidKeeps(s); }
  }

  lemma {:induction false} EmptyInv(s: Socket)
    requires s.complete == [] && s.dw == None && s.high == [] && s.low == [] && s.server == Ready && s.pipe == []
             && s.senders == []
    requires s.lock == Free && Opening(s.kind) && !s.closing && s.wbSize == 0 && s.sending == 0 && s.cut == None
             && s.bytes == []
    requires !s.late && s.events == [] && s.taken == [] && s.early == [] && s.lost == []
    ensures Inv(s)
  {
    FreshOrder(s);
    FreshCounts();
    assert Front(s.dw, s.high) == [];
    assert ServerOk(s) && SendersOk(s) && CountsOk(s) && BytesOk(s) && ClosesOk(s) && KeptOk(s);
  }

  lemma {:induction false} FreshInv(kind: SocketType)
    requires Opening(kind)
    ensures Inv(Fresh(kind))
  {
    EmptyInv(Fresh(kind));
  }

  lemma {:induction false} FreshOrder(s: Socket)
    requires s.complete == [] && s.dw == None && s.high == [] && s.low == [] && s.server == Ready && s.pipe == []
             && s.senders == []
    ensures Line(s) == [] && OrderOk(s)
  {
    assert Line(s) == [];
  }

  lemma {:induction false} FreshCounts()
    ensures ListsOk(None, [], []) && SendingOk(0, [], 0, []) && WbOk(0, [], []) && Framed([], [], [])
    ensures EventsOk([], 0) && Conserved([], [], [], [])
  {
  }

  /** Over every run: no assertion of the program fails, and the invariant holds. */
  lemma {:induction false} RunSafe(kind: SocketType, steps: seq<Label>)
    requires Opening(kind)
    ensures !RunAll(kind, steps).Fault?
    ensures RunAll(kind, steps).Next? ==> Inv(RunAll(kind, steps).s)
  {
    if steps == [] {
      FreshInv(kind);
    } else {
      var before := RunAll(kind, steps[..|steps| - 1]);
      RunSafe(kind, steps[..|steps| - 1]);
      if before.Next? {
        match steps[|steps| - 1]
        case NewThread => NewThreadKeeps(before.s);
        case BeginSend(u, priority, data) => CallKeeps(before.s, u, priority, data);
        case SendOn(u, r) => if u < |before.s.senders| { SenderKeeps(before.s, u, r); }
        case Control(c) => if !c.Send? { ControlKeeps(before.s, c); }
        case Serve(w) => ServerKeeps(before.s, w);
      }
    }
  }
}
