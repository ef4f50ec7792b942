/** The steps of the sending threads keep the invariant. */
module SocketSenders {
  import opened Basics
  import opened SocketSystem
  import opened SocketInvariant

  lemma {:induction false} Unfold(s: Socket)
    requires Inv(s)
    ensures ListsOk(s.dw, s.high, s.low) && ServerOk(s) && CountsOk(s) && BytesOk(s) && ClosesOk(s) && KeptOk(s)
    ensures SendersOk(s) && OrderOk(s)
  {
    assert Opened(0);
  }

  lemma {:induction false} Fold(s: Socket)
    requires ListsOk(s.dw, s.high, s.low) && ServerOk(s) && CountsOk(s) && BytesOk(s) && ClosesOk(s) && KeptOk(s)
    requires SendersOk(s) && OrderOk(s)
    ensures Inv(s)
  {
    hide ListsOk, ServerOk, CountsOk, BytesOk, ClosesOk, KeptOk, SendersOk, OrderOk;
  }

  /** Bounds only grow when a sender gives up its packet or begins a call. */
  lemma {:induction false} OrderKept(s: Socket, t: Socket)
    requires OrderOk(s) && Line(t) == Line(s)
    requires forall u: nat :: Bound(s.senders, u) <= Bound(t.senders, u)
    ensures OrderOk(t)
  {
    forall u: nat, priority ensures InOrder(Line(t), u, priority, Bound(t.senders, u)) {
      OrderMore(Line(s), u, priority, Bound(s.senders, u), Bound(t.senders, u));
    }
  }

  predicate FreeOrOf(lock: Lock, u: nat) { lock == Free || lock == BySender(u) }

  /** What the senders rely on is the same for all but one of them. */
  lemma {:induction false} OthersSame(s: Socket, t: Socket, u: nat)
    requires SendersOk(s) && u < |s.senders| && |t.senders| == |s.senders|
    requires t.kind == s.kind && t.high == s.high && t.dw == s.dw && t.pipe == s.pipe && t.server == s.server
    requires t.lock == s.lock || (FreeOrOf(s.lock, u) && FreeOrOf(t.lock, u))
    requires forall v :: 0 <= v < |s.senders| && v != u ==> t.senders[v] == s.senders[v]
    requires SenderOk(t, u, t.senders[u].state, t.senders[u].calls)
    ensures SendersOk(t)
  {
    assert Coming(t) == Coming(s);
    forall v | 0 <= v < |t.senders| ensures SenderOk(t, v, t.senders[v].state, t.senders[v].calls) {
      assert SenderOk(s, v, s.senders[v].state, s.senders[v].calls);
    }
  }

  const NO_PACKET := Packet(0, 0, PriorityHigh, [])

  /** Only the state of one sender changes, and perhaps the lock. */
  lemma {:induction false} MoveStep(s: Socket, t: Socket, u: nat, x: Sender)
    requires Inv(s) && u < |s.senders| && !s.senders[u].state.Insert? && !x.state.Insert?
    requires t == s.(lock := t.lock, senders := s.senders[u := x])
    requires t.lock == s.lock || (FreeOrOf(s.lock, u) && FreeOrOf(t.lock, u))
    requires Bound(s.senders, u) <= Bound(t.senders, u)
    requires SenderOk(t, u, x.state, x.calls)
    ensures Inv(t)
  {
    Unfold(s);
    SendingMove(s.sending, s.pipe, InHand(s.server), s.senders, u, x, NO_PACKET);
    assert Line(t) == Line(s);
    OrderKept(s, t);
    OthersSame(s, t, u);
  }

  /** Only the state of one sender changes. */
  lemma {:induction false} LocalStep(s: Socket, u: nat, x: SenderState)
    requires Inv(s) && u < |s.senders| && !s.senders[u].state.Insert? && !x.Insert?
    requires Holding(x) == Holding(s.senders[u].state) || Holding(x) == None
    requires SenderOk(s, u, x, s.senders[u].calls)
    ensures Inv(To(s, u, x))
  {
    Unfold(s);
    assert SenderOk(s, u, s.senders[u].state, s.senders[u].calls);
    assert Coming(To(s, u, x)) == Coming(s);
    MoveStep(s, To(s, u, x), u, Sender(x, s.senders[u].calls));
  }

  /** The loads of a check, one by one. */
  lemma {:induction false} LoadKeeps(s: Socket, u: nat, p: Packet, stage: Stage, locked: bool, calls: nat)
    requires SenderOk(s, u, Check(p, stage, locked), calls) && CountsOk(s)
    ensures SenderOk(s, u, AfterLoad(s, p, stage, locked), calls)
  {
    if s.high == [] { NothingIn(s.high, u); }
    if s.sending == 0 { NothingComing(s, u); }
  }

  lemma {:induction false} NothingIn(high: seq<Buffer>, u: nat)
    requires high == []
    ensures AllWhole(high) && NoneOf(PacketsOf(high), u)
  {
  }

  lemma {:induction false} NoSends(pipe: seq<Command>)
    requires SendsIn(pipe) == 0
    ensures PipePackets(pipe) == []
  {
    if pipe != [] { NoSends(pipe[..|pipe| - 1]); }
  }

  /** When `sending` is zero, nothing is on its way to the lists. */
  lemma {:induction false} NothingComing(s: Socket, u: nat)
    requires CountsOk(s) && s.sending == 0
    ensures NoneOf(Coming(s), u)
  {
    assert Shown(0);
    NoSends(s.pipe);
    assert Coming(s) == [];
  }

  lemma {:induction false} CheckKeeps(s: Socket, u: nat, p: Packet, stage: Stage, locked: bool)
    requires Inv(s) && u < |s.senders| && s.senders[u].state == Check(p, stage, locked)
    ensures CheckStep(s, u, p, stage, locked).Next? && Inv(CheckStep(s, u, p, stage, locked).s)
  {
    if stage.LoadType? && s.kind == Connected && !locked && s.lock == Free {
      LockKeeps(s, u, p, stage);
    } else {
      Unfold(s);
      assert SenderOk(s, u, s.senders[u].state, s.senders[u].calls);
      LoadKeeps(s, u, p, stage, locked, s.senders[u].calls);
      LocalStep(s, u, AfterLoad(s, p, stage, locked));
    }
  }

  lemma {:induction false} LockMoves(s: Socket, u: nat, lock: Lock, x: SenderState)
    requires Inv(s) && u < |s.senders| && !s.senders[u].state.Insert? && !x.Insert?
    requires Holding(x) == Holding(s.senders[u].state)
    requires s.lock == Free || s.lock == BySender(u)
    requires lock == Free || lock == BySender(u)
    requires SenderOk(s.(lock := lock), u, x, s.senders[u].calls)
    ensures Inv(To(s.(lock := lock), u, x))
  {
    var t := To(s.(lock := lock), u, x);
    assert Coming(t) == Coming(s.(lock := lock));
    MoveStep(s, t, u, Sender(x, s.senders[u].calls));
  }

  lemma {:induction false} LockKeeps(s: Socket, u: nat, p: Packet, stage: Stage)
    requires Inv(s) && u < |s.senders| && s.senders[u].state == Check(p, stage, false)
    requires stage.LoadType? && s.kind == Connected && s.lock == Free
    ensures Inv(To(s.(lock := BySender(u)), u, Check(p, LoadHigh, true)))
  {
    Unfold(s);
    assert SenderOk(s, u, s.senders[u].state, s.senders[u].calls);
    assert Coming(s.(lock := BySender(u))) == Coming(s);
    LockMoves(s, u, BySender(u), Check(p, LoadHigh, true));
  }

  // ------------------------------------------------- handing a packet over

  lemma {:induction false} PipeMore(pipe: seq<Command>, c: Command)
    ensures PipePackets(pipe + [c]) == PipePackets(pipe) + if c.Send? then [c.p] else []
  {
    assert (pipe + [c])[..|pipe|] == pipe;
  }

  lemma {:induction false} NoneMore(ps: seq<Packet>, p: Packet, u: nat)
    requires NoneOf(ps, u) && p.sender != u
    ensures NoneOf(ps + [p], u)
  {
    assert Shown(0);
    assert (ps + [p])[..|ps|] == ps;
  }

  lemma {:induction false} TakenMore(taken: seq<Packet>, a: seq<Packet>, b: seq<Packet>, early: seq<Packet>,
                                     lost: seq<Packet>, p: Packet)
    requires Conserved(taken, a + b, early, lost)
    ensures Conserved(taken + [p], a + [p] + b, early, lost)
  {
    assert Shown(0);
  }

  /** The order after sender `u` handed over its packet. */
  lemma {:induction false} OrderHandOver(s: Socket, t: Socket, u: nat, p: Packet, a: seq<Packet>, b: seq<Packet>)
    requires OrderOk(s) && Line(s) == a + b && Line(t) == a + [p] + b && p.sender == u && u < |s.senders|
    requires Serials(b, u, p.priority) == []
    requires Bound(s.senders, u) == p.serial && Bound(t.senders, u) == p.serial + 1
    requires forall v: nat :: v != u ==> Bound(t.senders, v) == Bound(s.senders, v)
    ensures OrderOk(t)
  {
    forall v: nat, priority ensures InOrder(Line(t), v, priority, Bound(t.senders, v)) {
      assert InOrder(Line(s), v, priority, Bound(s.senders, v));
      OrderAppend(a, b, p, v, priority, Bound(s.senders, v));
    }
  }

  lemma {:induction false} InsertOthers(s: Socket, t: Socket, u: nat, p: Packet)
    requires SendersOk(s) && u < |s.senders| && p.sender == u
    requires t == s.(pipe := s.pipe + [Send(p)], taken := t.taken,
             senders := s.senders[u := Sender(Away, s.senders[u].calls)])
    requires s.senders[u].state == Insert(p)
    ensures SendersOk(t)
  {
    PipeMore(s.pipe, Send(p));
    assert Coming(t) == Coming(s) + [p];
    forall v | 0 <= v < |t.senders| ensures SenderOk(t, v, t.senders[v].state, t.senders[v].calls) {
      assert SenderOk(s, v, s.senders[v].state, s.senders[v].calls);
      if v != u && SeenSending(s.senders[v].state) { NoneMore(Coming(s), p, v); }
    }
  }

  lemma {:induction false} InsertKeeps(s: Socket, u: nat, p: Packet)
    requires Inv(s) && u < |s.senders| && s.senders[u].state == Insert(p)
    ensures Inv(To(s.(pipe := s.pipe + [Send(p)], taken := s.taken + [p]), u, Away))
  {
    Unfold(s);
    var t := To(s.(pipe := s.pipe + [Send(p)], taken := s.taken + [p]), u, Away);
    assert SenderOk(s, u, s.senders[u].state, s.senders[u].calls);
    SendingMove(s.sending, s.pipe, InHand(s.server), s.senders, u, Sender(Away, s.senders[u].calls), p);
    PipeMore(s.pipe, Send(p));
    assert Line(t) == Line(s) + [p] + [] && Line(s) + [] == Line(s);
    OrderHandOver(s, t, u, p, Line(s), []);
    TakenMore(s.taken, Line(s), [], s.early, s.lost, p);
    InsertOthers(s, t, u, p);
  }

  lemma {:induction false} CountOrder(s: Socket, u: nat, p: Packet)
    requires OrderOk(s) && u < |s.senders| && s.senders[u].state == Queue(p)
    ensures OrderOk(To(s.(sending := s.sending + 1), u, Insert(p)))
    ensures Line(To(s.(sending := s.sending + 1), u, Insert(p))) == Line(s)
  {
    OrderKept(s, To(s.(sending := s.sending + 1), u, Insert(p)));
  }

  lemma {:induction false} CountKeeps(s: Socket, u: nat, p: Packet)
    requires Inv(s) && u < |s.senders| && s.senders[u].state == Queue(p)
    ensures Inv(To(s.(sending := s.sending + 1), u, Insert(p)))
  {
    Unfold(s);
    var t := To(s.(sending := s.sending + 1), u, Insert(p));
    assert SenderOk(s, u, s.senders[u].state, s.senders[u].calls);
    SendingMove(s.sending, s.pipe, InHand(s.server), s.senders, u, Sender(Insert(p), s.senders[u].calls), p);
    CountOrder(s, u, p);
    OthersSame(s, t, u);
  }

  // ------------------------------------------------------- the direct write

  lemma {:induction false} LowHasNoHigh(dw: Option<Buffer>, high: seq<Buffer>, low: seq<Buffer>, u: nat)
    requires ListsOk(dw, high, low)
    ensures NoneOf(PacketsOf(low), u)
  {
    assert Shown(0);
    OnlyLow(low, u);
  }

  lemma {:induction false} OnlyLow(low: seq<Buffer>, u: nat)
    requires forall i :: 0 <= i < |low| ==> low[i].packet.priority == PriorityLow
    ensures Serials(PacketsOf(low), u, PriorityHigh) == []
  {
    if low != [] {
      OnlyLow(low[..|low| - 1], u);
      var ps := PacketsOf(low[..|low| - 1]);
      assert (ps + [low[|low| - 1].packet])[..|ps|] == ps;
    }
  }

  lemma {:induction false} NoneConcat(a: seq<Packet>, b: seq<Packet>, u: nat)
    requires NoneOf(a, u) && NoneOf(b, u)
    ensures NoneOf(a + b, u) && Serials(a + b, u, PriorityHigh) == []
  {
    assert Shown(0);
    SerialsConcat(a, b, u, PriorityHigh);
  }

  lemma {:induction false} LineDirect(c: seq<Packet>, d: seq<Packet>, h: seq<Packet>, l: seq<Packet>, x: seq<Packet>,
                                      y: seq<Packet>)
    ensures c + d + h + l + x + y == c + d + (h + l + (x + y))
  {
  }

  /** What is behind a direct write in line: nothing of the same sender. */
  lemma {:induction false} NothingBehind(s: Socket, u: nat)
    requires ListsOk(s.dw, s.high, s.low) && NoneOf(PacketsOf(s.high), u) && NoneOf(Coming(s), u)
    ensures Serials(PacketsOf(s.high) + PacketsOf(s.low) + Coming(s), u, PriorityHigh) == []
  {
    LowHasNoHigh(s.dw, s.high, s.low, u);
    NoneConcat(PacketsOf(s.high), PacketsOf(s.low), u);
    NoneConcat(PacketsOf(s.high) + PacketsOf(s.low), Coming(s), u);
  }

  /** The line before and after the write. */
  lemma {:induction false} DirectLine(s: Socket, t: Socket, p: Packet, done: bool)
    requires s.dw == None && t.high == s.high && t.low == s.low && t.server == s.server && t.pipe == s.pipe
    requires if done then t.complete == s.complete + [p] && t.dw == None
             else t.complete == s.complete && t.dw.Some? && t.dw.value.packet == p
    ensures var rest := PacketsOf(s.high) + PacketsOf(s.low) + Coming(s);
            Line(s) == s.complete + rest && Line(t) == s.complete + [p] + rest
  {
    var h, l, x, y := PacketsOf(s.high), PacketsOf(s.low), HandPackets(s.server), PipePackets(s.pipe);
    LineDirect(s.complete, [], h, l, x, y);
    LineDirect(s.complete, [p], h, l, x, y);
    assert s.complete + [] == s.complete;
    assert s.complete + [p] + [] == s.complete + [p];
  }

  /** The bytes of a direct write follow whole packets, unless a partly sent buffer was freed. */
  lemma {:induction false} DirectBytes(s: Socket, p: Packet, n: nat)
    requires BytesOk(s) && AllWhole(s.high) && s.dw == None && n <= |p.data| && s.cut == None
    ensures Framed(s.bytes + p.data[..n], s.complete, p.data[..n])
    ensures n == |p.data| ==> Framed(s.bytes + p.data[..n], s.complete + [p], Front(None, s.high))
  {
    assert Shown(0);
    assert Front(s.dw, s.high) == [] == p.data[..0];
    FramedMore(s.bytes, s.complete, p.data, 0, n);
    assert p.data[0..n] == p.data[..n];
    if n == |p.data| {
      assert p.data[..n] == p.data;
      FramedDone(s.bytes + p.data, s.complete, p);
    }
  }

  /** A direct write that gets nothing out leaves the bytes as they were. */
  lemma {:induction false} NoBytes(s: Socket, p: Packet)
    requires BytesOk(s) && s.cut.Some?
    ensures !s.late ==> Framed(s.bytes + p.data[..0], s.complete, s.cut.value.Written())
    ensures !s.late && p.data == [] ==> Framed(s.bytes + p.data[..0], s.complete + [p], s.cut.value.Written())
  {
    assert Shown(0);
    assert s.bytes + p.data[..0] == s.bytes;
    assert (s.complete + [p])[..|s.complete|] == s.complete;
    assert Flat(s.complete) + [] == Flat(s.complete);
  }

  lemma {:induction false} DirectLists(dw: Option<Buffer>, high: seq<Buffer>, low: seq<Buffer>, b: Buffer)
    requires ListsOk(dw, high, low) && AllWhole(high)
    ensures ListsOk(Some(b), high, low) && ListsOk(None, high, low)
  {
    assert Shown(0);
  }

  lemma {:induction false} DirectOthers(s: Socket, t: Socket, u: nat, x: SenderState)
    requires SendersOk(s) && u < |s.senders| && s.senders[u].state.Write? && x.Unlock?
    requires t.senders == s.senders[u := Sender(x, s.senders[u].calls)] && t.lock == s.lock && t.kind == s.kind
    requires t.pipe == s.pipe && t.server == s.server && t.high == s.high
    ensures SendersOk(t)
  {
    assert SenderOk(s, u, s.senders[u].state, s.senders[u].calls);
    assert Coming(t) == Coming(s);
    forall v | 0 <= v < |t.senders| ensures SenderOk(t, v, t.senders[v].state, t.senders[v].calls) {
      assert SenderOk(s, v, s.senders[v].state, s.senders[v].calls);
    }
  }

  lemma {:induction false} DirectKept(s: Socket, t: Socket, u: nat, p: Packet, done: bool)
    requires KeptOk(s) && OrderOk(s) && u < |s.senders| && SenderOk(s, u, Write(p), s.senders[u].calls)
    requires s.senders[u].state == Write(p) && ListsOk(s.dw, s.high, s.low)
    requires t.high == s.high && t.low == s.low && t.server == s.server && t.pipe == s.pipe
    requires t.taken == s.taken + [p] && t.early == s.early && t.lost == s.lost
    requires t.senders == s.senders[u := Sender(Unlock(!done), s.senders[u].calls)]
    requires if done then t.complete == s.complete + [p] && t.dw == None
             else t.complete == s.complete && t.dw.Some? && t.dw.value.packet == p
    ensures Conserved(t.taken, Line(t), t.early, t.lost) && OrderOk(t)
  {
    var rest := PacketsOf(s.high) + PacketsOf(s.low) + Coming(s);
    NothingBehind(s, u);
    DirectLine(s, t, p, done);
    OrderHandOver(s, t, u, p, s.complete, rest);
    TakenMore(s.taken, s.complete, rest, s.early, s.lost, p);
  }

  lemma {:induction false} DirectKeeps(s: Socket, u: nat, p: Packet, r: WriteResult)
    requires Inv(s) && u < |s.senders| && s.senders[u].state == Write(p)
    ensures !DirectWrite(s, u, p, r).Fault?
    ensures DirectWrite(s, u, p, r).Next? ==> Inv(DirectWrite(s, u, p, r).s)
  {
    var n := if r.Wrote? then r.n else 0;
    if n <= |p.data| {
      Unfold(s);
      assert SenderOk(s, u, s.senders[u].state, s.senders[u].calls);
      var t := DirectWrite(s, u, p, r).s;
      DirectOthers(s, t, u, Unlock(n != |p.data|));
      DirectCounts(s, t, u, n != |p.data|);
      DirectKept(s, t, u, p, n == |p.data|);
      DirectLists(s.dw, s.high, s.low, Buffer(p, n));
      if s.cut == None { DirectBytes(s, p, n); } else if n == 0 { NoBytes(s, p); }
      hide ListsOk, CountsOk, SendersOk, OrderOk, Framed, Conserved, ServerOk, KeptOk, ClosesOk, Inv, SenderOk;
      DirectFinish(s, t, u, p, n);
    }
  }

  lemma {:induction false} DirectCounts(s: Socket, t: Socket, u: nat, trigger: bool)
    requires CountsOk(s) && u < |s.senders| && s.senders[u].state.Write?
    requires t.senders == s.senders[u := Sender(Unlock(trigger), s.senders[u].calls)]
    requires t.pipe == s.pipe && t.server == s.server && t.high == s.high && t.low == s.low
    requires t.sending == s.sending && t.wbSize == s.wbSize && t.kind == s.kind
    ensures CountsOk(t)
  {
    SendingMove(s.sending, s.pipe, InHand(s.server), s.senders, u, Sender(Unlock(trigger), s.senders[u].calls),
                Packet(0, 0, PriorityHigh, []));
  }

  lemma {:induction false} DirectFinish(s: Socket, t: Socket, u: nat, p: Packet, n: nat)
    requires ServerOk(s) && BytesOk(s) && ClosesOk(s) && KeptOk(s) && s.dw == None && n <= |p.data|
             && s.lock == BySender(u)
    requires t == s.(bytes := s.bytes + p.data[..n], taken := s.taken + [p], late := s.late || (s.cut.Some? && n > 0),
                     complete := if n == |p.data| then s.complete + [p] else s.complete,
                     dw := if n == |p.data| then None else Some(Buffer(p, n)), senders := t.senders)
    requires s.kind != Invalid && |t.senders| == |s.senders|
    requires s.cut == None ==> Framed(t.bytes, t.complete, Front(t.dw, t.high))
    requires s.cut.Some? && !s.late && n == 0 ==> Framed(t.bytes, t.complete, s.cut.value.Written())
    requires Conserved(t.taken, Line(t), t.early, t.lost)
    requires ListsOk(t.dw, t.high, t.low) && CountsOk(t) && SendersOk(t) && OrderOk(t)
    ensures Inv(t)
  {
  }

  lemma {:induction false} UnlockKeeps(s: Socket, u: nat, x: SenderState)
    requires Inv(s) && u < |s.senders| && Locked(s.senders[u].state) && !x.Insert?
    requires Holding(x) == Holding(s.senders[u].state) && !Locked(x) && !x.Check? && !x.Write?
    ensures Inv(To(s.(lock := Free), u, x))
  {
    Unfold(s);
    assert SenderOk(s, u, s.senders[u].state, s.senders[u].calls);
    LockMoves(s, u, Free, x);
  }

  /** A command that carries no packet enters the pipe. */
  lemma {:induction false} ControlKeeps(s: Socket, c: Command)
    requires Inv(s) && !c.Send?
    ensures Inv(s.(pipe := s.pipe + [c]))
  {
    Unfold(s);
    var t := s.(pipe := s.pipe + [c]);
    SendingInsert(s.sending, s.pipe, InHand(s.server), s.senders, c);
    PipeMore(s.pipe, c);
    assert PipePackets(s.pipe) + [] == PipePackets(s.pipe);
    assert Line(t) == Line(s) && Coming(t) == Coming(s);
    OrderKept(s, t);
    forall v | 0 <= v < |t.senders| ensures SenderOk(t, v, t.senders[v].state, t.senders[v].calls) {
      assert SenderOk(s, v, s.senders[v].state, s.senders[v].calls);
    }
  }

  lemma {:induction false} NewThreadKeeps(s: Socket)
    requires Inv(s)
    ensures Inv(s.(senders := s.senders + [Sender(Away, 0)]))
  {
    Unfold(s);
    var t := s.(senders := s.senders + [Sender(Away, 0)]);
    SendingInsert(s.sending, s.pipe, InHand(s.server), s.senders, Trigger);
    assert Line(t) == Line(s) && Coming(t) == Coming(s);
    OrderKept(s, t);
    forall v | 0 <= v < |t.senders| ensures SenderOk(t, v, t.senders[v].state, t.senders[v].calls) {
      if v < |s.senders| { assert SenderOk(s, v, s.senders[v].state, s.senders[v].calls); }
    }
  }

  lemma {:induction false} CallStep(s: Socket, u: nat, p: Packet)
    requires Inv(s) && u < |s.senders| && s.senders[u].state == Away && p.sender == u && p.serial == s.senders[u].calls
    ensures Inv(s.(senders := s.senders[u := Sender(Start(p), p.serial + 1)]))
  {
    Unfold(s);
    var x := Sender(Start(p), p.serial + 1);
    var t := s.(senders := s.senders[u := x]);
    assert SenderOk(s, u, s.senders[u].state, s.senders[u].calls);
    assert SenderOk(t, u, x.state, x.calls);
    MoveStep(s, t, u, x);
  }

  lemma {:induction false} CallKeeps(s: Socket, u: nat, priority: Priority, data: seq<Byte>)
    requires Inv(s)
    ensures !Call(s, u, priority, data).Fault?
    ensures Call(s, u, priority, data).Next? ==> Inv(Call(s, u, priority, data).s)
  {
    hide Inv;
    if u < |s.senders| && s.senders[u].state == Away {
      var n := s.senders[u].calls;
      CallStep(s, u, Packet(u, n, priority, data));
    }
  }

  lemma {:induction false} StartKeeps(s: Socket, u: nat, p: Packet, x: SenderState)
    requires Inv(s) && u < |s.senders| && s.senders[u].state == Start(p)
    requires x == Away || x == Queue(p) || (p.priority == PriorityHigh && x == Check(p, LoadHigh, false))
    ensures Inv(To(s, u, x))
  {
    Unfold(s);
    assert SenderOk(s, u, s.senders[u].state, s.senders[u].calls);
    LocalStep(s, u, x);
  }

  lemma {:induction false} UnlockStep(s: Socket, u: nat, trigger: bool)
    requires Inv(s) && u < |s.senders| && s.senders[u].state == Unlock(trigger)
    ensures Inv(To(s.(lock := Free, pipe := if trigger then s.pipe + [Trigger] else s.pipe), u, Away))
  {
    UnlockKeeps(s, u, Away);
    if trigger { ControlKeeps(To(s.(lock := Free), u, Away), Trigger); }
  }

  lemma {:induction false} SenderKeeps(s: Socket, u: nat, r: WriteResult)
    requires Inv(s) && u < |s.senders|
    ensures !SenderStep(s, u, r).Fault?
    ensures SenderStep(s, u, r).Next? ==> Inv(SenderStep(s, u, r).s)
  {
    match s.senders[u].state
    case Away =>
    case Start(p) =>
      StartKeeps(s, u, p, if s.kind == Invalid then Away else if p.priority == PriorityLow then Queue(p)
                          else if s.closing then Away else Check(p, LoadHigh, false));
    case Check(p, stage, locked) => CheckKeeps(s, u, p, stage, locked);
    case Write(p) => DirectKeeps(s, u, p, r);
    case Unlock(trigger) => UnlockStep(s, u, trigger);
    case UnlockToQueue(p) => UnlockKeeps(s, u, Queue(p));
    case Queue(p) => if s.sending != SENDING_MAX { CountKeeps(s, u, p); }
    case Insert(p) => InsertKeeps(s, u, p);
  }
}
