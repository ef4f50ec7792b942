/** When packets stay whole on the wire, exactly. */
module SocketFraming {
  import opened Basics
  import opened SocketSystem
  import opened SocketInvariant
  import opened SocketSenders
  import opened SocketResults

  /** A direct write begins where a packet ended, exactly as long as no partly sent
      buffer was freed. */
  lemma {:induction false} BoundaryExactly(s: Socket, u: nat, p: Packet)
    requires Reachable(s) && u < |s.senders| && s.senders[u].state == Write(p) && !s.late
    ensures s.bytes == Flat(s.complete) <==> s.cut == None
  {
    WholePackets(s);
    DirectWriteIsNext(s, u, p);
    ReachableInv(s);
    if s.cut.Some? {
      assert |s.cut.value.Written()| > 0;
      assert |s.bytes| == |Flat(s.complete)| + |s.cut.value.Written()|;
    } else if s.high != [] {
      assert s.high[0].Whole();
    }
    assert Flat(s.complete) + [] == Flat(s.complete);
  }

  /** Does this step free a partly sent buffer: force_close, with such a buffer first in
      the high list before it takes the lock, or left by a direct write after that? */
  predicate FreesPart(s: Socket, t: Socket) {
    || (!s.server.Freeing? && t.server.Freeing? && s.high != [] && s.high[0].sent > 0)
    || (s.server.Freeing? && t.server == Ready && s.dw.Some? && s.dw.value.sent > 0)
  }

  /** A packet is cut short in force_close only, and only when part of it was sent. */
  lemma {:induction false} CutExactly(s: Socket, x: Label, t: Socket)
    requires Reachable(s) && Exec(s, x) == Next(t) && s.cut == None
    ensures t.cut.Some? <==> FreesPart(s, t)
  {
    ReachableInv(s);
    match x
    case NewThread =>
    case BeginSend(u, priority, data) =>
    case SendOn(u, r) => SenderCuts(s, u, r);
    case Control(c) =>
    case Serve(w) => ServerCuts(s, w);
  }

  lemma {:induction false} SenderCuts(s: Socket, u: nat, r: WriteResult)
    requires u < |s.senders| && SenderStep(s, u, r).Next?
    ensures var t := SenderStep(s, u, r).s; t.cut == s.cut && t.server == s.server
  {
  }

  /** One buffer after the other is sent, or a list is given up. */
  predicate CutsAs(s: Socket, t: Socket) { t.cut.Some? <==> FreesPart(s, t) }

  lemma {:induction false} ReadyCuts(s: Socket, w: Wakeup)
    requires ServerOk(s) && ServerStep(s, w).Next? && s.cut == None && s.server == Ready
    ensures CutsAs(s, ServerStep(s, w).s)
  {
    match w
    case TakeCommand => ObeyCuts(s);
    case OnRead(n) => ForwardCuts(s, n);
    case _ =>
  }

  lemma {:induction false} ObeyCuts(s: Socket)
    requires s.cut == None && s.server == Ready && s.pipe != [] && Obey(s.(pipe := s.pipe[1..]), s.pipe[0]).Next?
    ensures CutsAs(s, Obey(s.(pipe := s.pipe[1..]), s.pipe[0]).s)
  {
  }

  lemma {:induction false} ForwardCuts(s: Socket, n: int)
    requires s.cut == None && s.server == Ready && Forward(s, n).Next?
    ensures CutsAs(s, Forward(s, n).s)
  {
  }

  lemma {:induction false} FlushCuts(s: Socket, w: Wakeup)
    requires ServerOk(s) && ServerStep(s, w).Next? && s.cut == None && (s.server.FlushHigh? || s.server.FlushLow?)
    ensures CutsAs(s, ServerStep(s, w).s)
  {
  }

  lemma {:induction false} ServerCuts(s: Socket, w: Wakeup)
    requires ServerOk(s) && ServerStep(s, w).Next? && s.cut == None
    ensures CutsAs(s, ServerStep(s, w).s)
  {
    if s.server == Ready {
      ReadyCuts(s, w);
    } else if s.server.FlushHigh? || s.server.FlushLow? {
      FlushCuts(s, w);
    }
  }

  /** Is this a direct write that gets bytes out? */
  predicate WritesBytes(s: Socket, x: Label) {
    && x.SendOn? && x.u < |s.senders| && s.senders[x.u].state.Write?
    && x.r.Wrote? && 0 < x.r.n <= |s.senders[x.u].state.p.data|
  }

  /** Packets get mixed on the wire by exactly the direct writes that get bytes out while
      the wire does not end with a whole packet; and that happens only between the two
      halves of force_close, after it freed a partly sent buffer. */
  lemma {:induction false} LateExactly(s: Socket, x: Label, t: Socket)
    requires Reachable(s) && Exec(s, x) == Next(t) && !s.late
    ensures t.late <==> WritesBytes(s, x) && s.bytes != Flat(s.complete)
    ensures t.late ==> s.cut.Some? && s.server.Freeing?
  {
    ReachableInv(s);
    match x
    case NewThread =>
    case BeginSend(u, priority, data) =>
    case SendOn(u, r) =>
      if s.senders[u].state.Write? {
        BoundaryExactly(s, u, s.senders[u].state.p);
        assert SenderOk(s, u, s.senders[u].state, s.senders[u].calls);
      } else {
        NotLate(s, u, r);
      }
    case Control(c) =>
    case Serve(w) => ServerNotLate(s, w);
  }

  lemma {:induction false} NotLate(s: Socket, u: nat, r: WriteResult)
    requires u < |s.senders| && SenderStep(s, u, r).Next? && !s.senders[u].state.Write?
    ensures SenderStep(s, u, r).s.late == s.late
  {
  }

  lemma {:induction false} ServerNotLate(s: Socket, w: Wakeup)
    requires ServerStep(s, w).Next?
    ensures ServerStep(s, w).s.late == s.late
  {
    match w
    case GoOn(r) =>
    case _ =>
  }

  /** A run in which force_close never frees a partly sent buffer keeps packets whole:
      what is on the wire is whole packets, and at most the beginning of one more. */
  lemma {:induction false} WholeUnlessCut(s: Socket)
    requires Reachable(s) && s.cut == None
    ensures !s.late && (PartOf(s).Some? ==> PartOf(s).value.Valid())
    ensures s.bytes == Flat(s.complete) + if PartOf(s).Some? then PartOf(s).value.Written() else []
  {
    ReachableInv(s);
    WholePackets(s);
  }
}
