/** What a socket promises, over every run. */
module SocketResults {
  import opened Basics
  import opened SocketSystem
  import opened SocketInvariant
  import opened SocketSenders
  import opened SocketFlush

  ghost predicate Reachable(s: Socket) {
    exists kind, steps :: Opening(kind) && RunAll(kind, steps) == Next(s)
  }

  lemma {:induction false} ReachableInv(s: Socket)
    requires Reachable(s)
    ensures ListsOk(s.dw, s.high, s.low) && ServerOk(s) && CountsOk(s) && BytesOk(s) && ClosesOk(s) && KeptOk(s)
    ensures SendersOk(s) && OrderOk(s) && Inv(s)
  {
    var kind, steps :| Opening(kind) && RunAll(kind, steps) == Next(s);
    RunSafe(kind, steps);
    Unfold(s);
  }

  lemma {:induction false} OneMore(s: Socket, x: Label, t: Socket)
    requires Reachable(s) && Exec(s, x) == Next(t)
    ensures Reachable(t)
  {
    var kind, steps :| Opening(kind) && RunAll(kind, steps) == Next(s);
    assert (steps + [x])[..|steps|] == steps;
    assert RunAll(kind, steps + [x]) == Next(t);
  }

  /** No assertion of the program fails in any state that a run reaches. */
  lemma {:induction false} NoFault(s: Socket, x: Label)
    requires Reachable(s)
    ensures !Exec(s, x).Fault?
  {
    var kind, steps :| Opening(kind) && RunAll(kind, steps) == Next(s);
    assert (steps + [x])[..|steps|] == steps;
    RunSafe(kind, steps + [x]);
    assert RunAll(kind, steps + [x]) == Exec(s, x);
  }

  // -------------------------------------------------------------- the bytes

  /** The buffer that is partly written: in `dw`, at the head of the high list, or
      freed in that state. */
  function PartOf(s: Socket): Option<Buffer> {
    if s.cut.Some? then s.cut else if s.dw.Some? then s.dw else if s.high != [] then Some(s.high[0]) else None
  }

  /** The bytes on the wire are whole packets laid end to end; only the last may be
      partial, and then it is one packet's beginning.  Nothing else gets in between,
      unless a direct write was late; and that cannot happen before the socket is closed. */
  lemma {:induction false} WholePackets(s: Socket)
    requires Reachable(s)
    ensures PartOf(s).Some? ==> PartOf(s).value.Valid()
    ensures !s.late ==> s.bytes == Flat(s.complete) + if PartOf(s).Some? then PartOf(s).value.Written() else []
    ensures Live(s) ==> s.cut == None && !s.late
  {
    ReachableInv(s);
    assert Shown(0);
    if s.cut.None? && s.dw.Some? {
      assert s.high != [] ==> s.high[0].Whole();
    }
  }

  /** While the socket is not being closed, `wb_size` is the unsent size of both lists,
      only the first of all waiting buffers is partly sent, and the low list is whole. */
  lemma {:induction false} ListsInStep(s: Socket)
    requires Reachable(s) && Live(s)
    ensures AllValid(s.high) && AllValid(s.low) && s.wbSize == UnsentOf(s.high) + UnsentOf(s.low)
    ensures forall i :: 0 <= i < |s.low| ==> s.low[i].Whole()
    ensures forall i :: 0 <= i < |s.high| && (i > 0 || s.dw.Some?) ==> s.high[i].Whole()
  {
    ReachableInv(s);
    ReadSizes(s.wbSize, s.high, s.low);
    ReadLists(s.dw, s.high, s.low);
  }

  lemma {:induction false} ReadSizes(wbSize: int, high: seq<Buffer>, low: seq<Buffer>)
    requires WbOk(wbSize, high, low)
    ensures AllValid(high) && AllValid(low) && wbSize == UnsentOf(high) + UnsentOf(low)
  {
    assert Shown(0);
  }

  lemma {:induction false} ReadLists(dw: Option<Buffer>, high: seq<Buffer>, low: seq<Buffer>)
    requires ListsOk(dw, high, low)
    ensures forall i :: 0 <= i < |low| ==> low[i].Whole()
    ensures forall i :: 0 <= i < |high| && (i > 0 || dw.Some?) ==> high[i].Whole()
  {
    assert Shown(0);
  }

  /** `sending` counts the requests that are on their way to the lists. */
  lemma {:induction false} SendingCounts(s: Socket)
    requires Reachable(s)
    ensures s.sending == SendsIn(s.pipe) + InHand(s.server) + Inserting(s.senders)
  {
    ReachableInv(s);
    assert Shown(0);
  }

  /** A direct write happens with nothing before it: no buffer partly written, and no
      high priority packet of the same sender anywhere on its way. */
  lemma {:induction false} DirectWriteIsNext(s: Socket, u: nat, p: Packet)
    requires Reachable(s) && u < |s.senders| && s.senders[u].state == Write(p)
    ensures s.dw == None && s.lock == BySender(u) && p.priority == PriorityHigh
    ensures forall i :: 0 <= i < |s.high| ==> s.high[i].Whole()
    ensures Serials(PacketsOf(s.high) + PacketsOf(s.low) + Coming(s), u, PriorityHigh) == []
  {
    ReachableInv(s);
    assert SenderOk(s, u, s.senders[u].state, s.senders[u].calls);
    assert Shown(0);
    NothingBehind(s, u);
  }

  // -------------------------------------------------------------- the order

  /** The packets of one sender and one priority are written, and wait to be written,
      in the order of its calls. */
  lemma {:induction false} CallOrder(s: Socket, u: nat, priority: Priority)
    requires Reachable(s)
    ensures Increasing(Serials(Line(s), u, priority), if u < |s.senders| then s.senders[u].calls else 0)
    ensures Increasing(Serials(s.complete, u, priority), if u < |s.senders| then s.senders[u].calls else 0)
  {
    ReachableInv(s);
    assert InOrder(Line(s), u, priority, Bound(s.senders, u));
    assert Shown(0);
    var calls := if u < |s.senders| then s.senders[u].calls else 0;
    if u < |s.senders| { assert SenderOk(s, u, s.senders[u].state, s.senders[u].calls); }
    IncreasingMore(Serials(Line(s), u, priority), Bound(s.senders, u), calls);
    var rest := DwPackets(s.dw) + PacketsOf(s.high) + PacketsOf(s.low) + HandPackets(s.server) + PipePackets(s.pipe);
    LineAssoc(s.complete, DwPackets(s.dw), PacketsOf(s.high), PacketsOf(s.low), HandPackets(s.server),
      PipePackets(s.pipe));
    SerialsConcat(s.complete, rest, u, priority);
    IncreasingPrefix(Serials(s.complete, u, priority), Serials(rest, u, priority), calls);
  }

  lemma {:induction false} LineAssoc(c: seq<Packet>, d: seq<Packet>, h: seq<Packet>, l: seq<Packet>, x: seq<Packet>,
                                     y: seq<Packet>)
    ensures c + d + h + l + x + y == c + (d + h + l + x + y)
  {
  }

  lemma {:induction false} IncreasingPrefix(a: seq<nat>, b: seq<nat>, bound: nat)
    requires Increasing(a + b, bound)
    ensures Increasing(a, bound)
  {
    forall i, j | 0 <= i < j < |a| ensures a[i] < a[j] { assert (a + b)[i] < (a + b)[j]; }
    forall i | 0 <= i < |a| ensures a[i] < bound { assert (a + b)[i] < bound; }
  }

  /** No packet is lost or doubled: each one taken over is written, or in line, or was
      refused before the socket was started, or was lost with a socket that is no longer open. */
  lemma {:induction false} NothingLost(s: Socket)
    requires Reachable(s)
    ensures multiset(s.taken) == multiset(Line(s)) + multiset(s.early) + multiset(s.lost)
    ensures Live(s) && s.kind != HalfcloseWrite && !s.closing ==> s.lost == []
  {
    ReachableInv(s);
    assert Shown(0);
  }

  /** Nothing is waiting and nothing is on its way. */
  predicate AtRest(s: Socket) {
    s.server == Ready && Empty(s) && s.dw == None && s.sending == 0 && s.early == []
  }

  lemma {:induction false} RestLine(s: Socket)
    requires AtRest(s) && PipePackets(s.pipe) == []
    ensures Line(s) == s.complete && PartOf(s) == s.cut
  {
    assert s.complete + [] + [] + [] + [] + [] == s.complete;
  }

  /** An open socket at rest has written every packet that it took over, completely. */
  lemma {:induction false} AllWritten(s: Socket)
    requires Reachable(s) && AtRest(s) && Open(s)
    ensures s.bytes == Flat(s.complete) && multiset(s.complete) == multiset(s.taken) && s.wbSize == 0
  {
    WholePackets(s);
    NothingLost(s);
    ListsInStep(s);
    SendingCounts(s);
    NoSends(s.pipe);
    RestLine(s);
  }

  // ------------------------------------------------------------- life cycle

  /** SOCKET_CLOSE is raised once at most, and no SOCKET_DATA after it. */
  lemma {:induction false} CloseOnce(s: Socket)
    requires Reachable(s)
    ensures Closes(s.events) <= 1
    ensures forall i, j ::
              0 <= i < j < |s.events| && s.events[i] == EvClose ==> s.events[j] != EvData && s.events[j] != EvClose
  {
    ReachableInv(s);
    assert Shown(0);
    NoneAfter(s.events);
  }

  lemma {:induction false} NoneAfter(es: seq<Event>)
    requires DataBeforeClose(es) && Closes(es) <= 1
    ensures forall i, j :: 0 <= i < j < |es| && es[i] == EvClose ==> es[j] != EvData && es[j] != EvClose
  {
    if es != [] {
      var m := |es| - 1;
      NoneAfter(es[..m]);
      forall i, j | 0 <= i < j < |es| && es[i] == EvClose
        ensures es[j] != EvData && es[j] != EvClose
      {
        assert es[..m][i] == EvClose;
        SomeClose(es[..m], i);
        if j < m { assert es[..m][j] == es[j]; }
      }
    }
  }

  lemma {:induction false} SomeClose(es: seq<Event>, i: nat)
    requires i < |es| && es[i] == EvClose
    ensures Closes(es) > 0
  {
    if i < |es| - 1 { SomeClose(es[..|es| - 1], i); }
  }

  /** A socket that stopped reading can only become invalid, and an invalid one stays invalid. */
  lemma {:induction false} NoWayBack(s: Socket, x: Label, t: Socket)
    requires Reachable(s) && Exec(s, x) == Next(t)
    ensures s.kind == HalfcloseRead ==> t.kind == HalfcloseRead || t.kind == Invalid
    ensures s.kind == HalfcloseWrite ==> t.kind == HalfcloseWrite || t.kind == Invalid
    ensures s.kind == Invalid ==> t.kind == Invalid
    ensures t.closing ==> t.kind == HalfcloseRead || t.kind == Invalid
  {
    ReachableInv(s);
    OneMore(s, x, t);
    ReachableInv(t);
    match x
    case NewThread =>
    case BeginSend(u, priority, data) =>
    case SendOn(u, r) => SenderKind(s, u, r);
    case Control(c) =>
    case Serve(w) => ServerKind(s, w);
  }

  lemma {:induction false} SenderKind(s: Socket, u: nat, r: WriteResult)
    requires u < |s.senders| && SenderStep(s, u, r).Next?
    ensures SenderStep(s, u, r).s.kind == s.kind
  {
  }

  lemma {:induction false} ServerKind(s: Socket, w: Wakeup)
    requires ServerOk(s) && ServerStep(s, w).Next?
    ensures var k := ServerStep(s, w).s.kind;
            && (s.kind == HalfcloseRead ==> k == HalfcloseRead || k == Invalid)
            && (s.kind == HalfcloseWrite ==> k == HalfcloseWrite || k == Invalid)
            && (s.kind == Invalid ==> k == Invalid)
  {
  }

  // ------------------------------------------------------- a late direct write

  lemma {:induction false} Move(s: Socket, u: nat, r: WriteResult, x: SenderState) returns (t: Socket)
    requires Reachable(s) && u < |s.senders| && SenderStep(s, u, r) == Next(To(s, u, x))
    ensures Reachable(t) && t == To(s, u, x)
  {
    t := To(s, u, x);
    OneMore(s, SendOn(u, r), t);
  }

  /** The loads of one check, on a socket with nothing to send. */
  lemma {:induction false} PassLoads(s: Socket, u: nat, p: Packet, locked: bool) returns (t: Socket)
    requires Reachable(s) && u < |s.senders| && s.senders[u].state == Check(p, LoadHigh, locked)
    requires Empty(s) && s.dw == None && s.sending == 0
    ensures Reachable(t) && t == To(s, u, Check(p, LoadType(false), locked))
  {
    hide Reachable;
    t := Move(s, u, Again, Check(p, LoadLow, locked));
    t := Move(t, u, Again, Check(p, LoadDw, locked));
    t := Move(t, u, Again, Check(p, LoadSending, locked));
    t := Move(t, u, Again, Check(p, LoadType(false), locked));
  }

  /** With nothing to send on a connected socket, a sender comes to write directly. */
  lemma {:induction false} PassChecks(s: Socket, u: nat, data: seq<Byte>) returns (t: Socket, p: Packet)
    requires Reachable(s) && u < |s.senders| && s.senders[u].state == Away
    requires s.kind == Connected && !s.closing && Empty(s) && s.dw == None && s.sending == 0 && s.lock == Free
    ensures p == Packet(u, s.senders[u].calls, PriorityHigh, data)
    ensures Reachable(t) && t == s.(lock := BySender(u),
            senders := s.senders[u := Sender(Write(p), s.senders[u].calls + 1)])
  {
    hide Reachable;
    p := Packet(u, s.senders[u].calls, PriorityHigh, data);
    t := s.(senders := s.senders[u := Sender(Start(p), s.senders[u].calls + 1)]);
    OneMore(s, BeginSend(u, PriorityHigh, data), t);
    t := Move(t, u, Again, Check(p, LoadHigh, false));
    t := PassLoads(t, u, p, false);
    var v := To(t.(lock := BySender(u)), u, Check(p, LoadHigh, true));
    OneMore(t, SendOn(u, Again), v);
    t := PassLoads(v, u, p, true);
    t := Move(t, u, Again, Write(p));
  }

  /** A direct write that gets out a part of its packet, and flushing that gets out some more. */
  lemma {:induction false} PartlySent(data: seq<Byte>) returns (s: Socket, p: Packet)
    requires |data| > 2
    ensures p == Packet(0, 0, PriorityHigh, data)
    ensures Reachable(s) && s.kind == Connected && !s.closing && s.high == [Buffer(p, 2)] && s.low == [] && s.dw == None
    ensures s.sending == 0 && s.lock == Free && s.pipe == [Trigger] && s.server == Ready && |s.senders| == 1
            && s.senders[0] == Sender(Away, 1)
    ensures s.bytes == data[..2] && s.complete == [] && s.cut == None && s.taken == [p]
  {
    var t: Socket;
    t, p := PartlyWritten(data);
    s := t.(lock := ByServer, server := FlushHigh, high := [Buffer(p, 1)] + t.high, dw := None,
      wbSize := t.wbSize + |data| - 1);
    OneMore(t, Serve(OnWrite), s);
    t := HighPart(s, Buffer(p, 1), 1);
    OneMore(s, Serve(GoOn(Wrote(1))), t);
    s := t;
  }

  lemma {:induction false} PartlyWritten(data: seq<Byte>) returns (s: Socket, p: Packet)
    requires |data| > 2
    ensures p == Packet(0, 0, PriorityHigh, data)
    ensures Reachable(s) && s.kind == Connected && !s.closing && s.high == [] && s.low == []
            && s.dw == Some(Buffer(p, 1))
    ensures s.sending == 0 && s.lock == Free && s.pipe == [Trigger] && s.server == Ready && |s.senders| == 1
            && s.senders[0] == Sender(Away, 1)
    ensures s.bytes == data[..1] && s.complete == [] && s.cut == None && s.taken == [p]
  {
    var t := OneThread();
    t, p := PassChecks(t, 0, data);
    s := WritePart(t, 0, p, 1);
  }

  /** A direct write that does not get out the whole packet. */
  lemma {:induction false} WritePart(s: Socket, u: nat, p: Packet, n: nat) returns (t: Socket)
    requires Reachable(s) && u < |s.senders| && s.senders[u].state == Write(p) && n < |p.data|
    ensures Reachable(t)
    ensures t == s.(bytes := s.bytes + p.data[..n], taken := s.taken + [p], late := s.late || (s.cut.Some? && n > 0),
            dw := Some(Buffer(p, n)),
                    lock := Free, pipe := s.pipe + [Trigger], senders := s.senders[u := s.senders[u].(state := Away)])
  {
    var v := To(s.(bytes := s.bytes + p.data[..n], taken := s.taken + [p], late := s.late || (s.cut.Some? && n > 0),
                   dw := Some(Buffer(p, n))), u, Unlock(true));
    OneMore(s, SendOn(u, Wrote(n)), v);
    t := To(v.(lock := Free, pipe := v.pipe + [Trigger]), u, Away);
    OneMore(v, SendOn(u, Again), t);
  }

  lemma {:induction false} OneThread() returns (s: Socket)
    ensures Reachable(s) && |s.senders| == 1 && s.senders[0] == Sender(Away, 0)
    ensures s.kind == Connected && !s.closing && s.high == [] && s.low == [] && s.dw == None && s.sending == 0
            && s.lock == Free
    ensures s.pipe == [] && s.server == Ready && s.bytes == [] && s.complete == [] && s.cut == None && s.taken == []
  {
    var none: seq<Label> := [];
    var start := Fresh(Connected);
    assert RunAll(Connected, none) == Next(start);
    s := start.(senders := [Sender(Away, 0)]);
    OneMore(start, NewThread, s);
  }

  /** force_close frees the lists before it takes the lock.  A sender that looks at them
      in between finds them empty, and writes after the beginning of a packet whose rest
      is gone: two bytes of `data`, and then `more`. */
  lemma {:induction false} LateWrite(data: seq<Byte>, more: seq<Byte>) returns (s: Socket)
    requires |data| > 2 && more != []
    ensures Reachable(s) && s.kind == Connected && s.late && s.bytes == data[..2] + more
    ensures s.taken == [Packet(0, 0, PriorityHigh, data), Packet(0, 1, PriorityHigh, more)]
  {
    var p: Packet;
    s, p := PartlySent(data);
    var t := s.(pipe := []);
    OneMore(s, Serve(TakeCommand), t);
    s := t.(pipe := [Close(true)]);
    OneMore(t, Control(Close(true)), s);
    t := FreeLists(s.(pipe := []), true, false);
    OneMore(s, Serve(TakeCommand), t);
    s := WriteAll(t, more);
  }

  lemma {:induction false} WriteAll(s: Socket, data: seq<Byte>) returns (t: Socket)
    requires Reachable(s) && |s.senders| == 1 && s.senders[0] == Sender(Away, 1)
    requires s.kind == Connected && !s.closing && Empty(s) && s.dw == None && s.sending == 0 && s.lock == Free
    ensures Reachable(t) && t.kind == s.kind && t.bytes == s.bytes + data
    ensures t.late == (s.late || (s.cut.Some? && data != []))
    ensures t.taken == s.taken + [Packet(0, 1, PriorityHigh, data)]
  {
    var v, q := PassChecks(s, 0, data);
    t := To(v.(bytes := v.bytes + q.data[..|data|], taken := v.taken + [q],
      late := v.late || (v.cut.Some? && |data| > 0),
               complete := v.complete + [q]), 0, Unlock(false));
    OneMore(v, SendOn(0, Wrote(|data|)), t);
  }
}
