/** One TCP socket as a state machine: any number of sending threads, which write
    to it directly or through the control pipe, and the socket thread, which takes
    commands from the pipe and handles events.  A step is one atomic load, one
    operation under the socket's lock, or one operation of the socket thread that
    other threads cannot see in part.

    What a write leaves in `dw` or in a list is stored in the same step as the
    write itself: only the peer sees the bytes before that. */
module SocketSystem {
  import opened Basics

  type Byte = b: int | 0 <= b < 256

  datatype Priority = PriorityHigh | PriorityLow

  /** The `serial`-th packet that one thread sends. */
  datatype Packet = Packet(sender: nat, serial: nat, priority: Priority, data: seq<Byte>)

  /** A packet in a write list or in `dw`; its first `sent` bytes are written. */
  datatype Buffer = Buffer(packet: Packet, sent: nat) {
    predicate Valid() { sent <= |packet.data| }

    /** Not partly sent: the buffer's pointer is still at its start. */
    predicate Whole() { sent == 0 }

    function Written(): seq<Byte>
      requires Valid()
    {
      packet.data[..sent]
    }

    function Unsent(): nat
      requires Valid()
    {
      |packet.data| - sent
    }
  }

  datatype SocketType = PAccept | Connecting | Connected | Bind | HalfcloseRead | HalfcloseWrite | Invalid

  datatype Command = Send(p: Packet) | Trigger | Close(shutdown: bool) | Resume

  datatype Event = EvOpen | EvData | EvClose | EvError

  datatype Lock = Free | ByServer | BySender(u: nat)

  datatype Server =
    | Ready
    | Taking(p: Packet)                                  // send_socket
    | Counting                                           // dec_sending_ref
    | CheckClose(wasRead: bool, empty: bool)             // close_socket, in nomore_sending_data
    | CheckRare(empty: bool)                             // end of file on a closing socket, likewise
    | FlushHigh
    | FlushLow
    | Freeing(raise: bool, error: bool)                  // force_close, after the lists are freed

  /** The next load of can_direct_write. */
  datatype Stage = LoadHigh | LoadLow | LoadDw | LoadSending | LoadHalf | LoadType(half: bool)

  datatype SenderState =
    | Away
    | Start(p: Packet)
    | Check(p: Packet, stage: Stage, locked: bool)
    | Write(p: Packet)
    | Unlock(trigger: bool)
    | UnlockToQueue(p: Packet)
    | Queue(p: Packet)
    | Insert(p: Packet)

  datatype Sender = Sender(state: SenderState, calls: nat)

  /** The fields of the socket, the pipe, and the threads; then what only the peer
      and the user see: the bytes written, the packets written completely, the
      events raised; then bookkeeping: what the socket took over, what it refused
      before it was started, what it lost later, a partly sent buffer that was freed,
      and whether bytes of a direct write came after it. */
  datatype Socket = Socket(
    kind: SocketType,
    closing: bool,
    high: seq<Buffer>,
    low: seq<Buffer>,
    wbSize: int,
    dw: Option<Buffer>,
    sending: nat,
    lock: Lock,
    pipe: seq<Command>,
    server: Server,
    senders: seq<Sender>,
    bytes: seq<Byte>,
    complete: seq<Packet>,
    events: seq<Event>,
    taken: seq<Packet>,
    early: seq<Packet>,
    lost: seq<Packet>,
    cut: Option<Buffer>,
    late: bool)

  /** `Fault`: a failed assertion of the program. */
  datatype Outcome = Blocked | Fault | Next(s: Socket)

  const SENDING_MAX := 0xffff

  datatype WriteResult = Wrote(n: nat) | Again | Failed

  predicate Empty(s: Socket) { s.high == [] && s.low == [] }

  // ---------------------------------------------------------------- senders

  function To(s: Socket, u: nat, x: SenderState): Socket
    requires u < |s.senders|
  {
    s.(senders := s.senders[u := s.senders[u].(state := x)])
  }

  /** socket_server_send and socket_server_send_lowpriority begin. */
  function Call(s: Socket, u: nat, priority: Priority, data: seq<Byte>): Outcome {
    if u >= |s.senders| || s.senders[u].state != Away then Blocked
    else
      var n := s.senders[u].calls;
      Next(s.(senders := s.senders[u := Sender(Start(Packet(u, n, priority, data)), n + 1)]))
  }

  function SenderStep(s: Socket, u: nat, r: WriteResult): Outcome
    requires u < |s.senders|
  {
    match s.senders[u].state
    case Away => Blocked
    case Start(p) =>
      if s.kind == Invalid then Next(To(s, u, Away))
      else if p.priority == PriorityLow then Next(To(s, u, Queue(p)))
      else if s.closing then Next(To(s, u, Away))
      else Next(To(s, u, Check(p, LoadHigh, false)))
    case Check(p, stage, locked) => CheckStep(s, u, p, stage, locked)
    case Write(p) => DirectWrite(s, u, p, r)
    case Unlock(trigger) =>
      Next(To(s.(lock := Free, pipe := if trigger then s.pipe + [Trigger] else s.pipe), u, Away))
    case UnlockToQueue(p) => Next(To(s.(lock := Free), u, Queue(p)))
    case Queue(p) => if s.sending == SENDING_MAX then Blocked else Next(To(s.(sending := s.sending + 1), u, Insert(p)))
    case Insert(p) => Next(To(s.(pipe := s.pipe + [Send(p)], taken := s.taken + [p]), u, Away))
  }

  /** One load of can_direct_write, and what the sender does next; after all the
      loads of a first check it tries to take the lock. */
  function CheckStep(s: Socket, u: nat, p: Packet, stage: Stage, locked: bool): Outcome
    requires u < |s.senders|
  {
    if stage.LoadType? && s.kind == Connected && !locked && s.lock == Free then
      Next(To(s.(lock := BySender(u)), u, Check(p, LoadHigh, true)))
    else Next(To(s, u, AfterLoad(s, p, stage, locked)))
  }

  function AfterLoad(s: Socket, p: Packet, stage: Stage, locked: bool): SenderState {
    var fails := if locked then UnlockToQueue(p) else Queue(p);
    match stage
    case LoadHigh => Check(p, if s.high == [] then LoadLow else LoadHalf, locked)
    case LoadLow => Check(p, if s.low == [] then LoadDw else LoadHalf, locked)
    case LoadDw => Check(p, if s.dw == None then LoadSending else LoadHalf, locked)
    case LoadSending => Check(p, if s.sending == 0 then LoadType(false) else LoadHalf, locked)
    case LoadHalf => if s.kind == HalfcloseWrite then Check(p, LoadType(true), locked) else fails
    case LoadType(_) => if s.kind == Connected && locked then Write(p) else fails
  }

  /** A direct write; an error counts as nothing written.  What is left goes to `dw`. */
  function DirectWrite(s: Socket, u: nat, p: Packet, r: WriteResult): Outcome
    requires u < |s.senders|
  {
    var n := if r.Wrote? then r.n else 0;
    if n > |p.data| then Blocked
    else
      var t := s.(bytes := s.bytes + p.data[..n], taken := s.taken + [p], late := s.late || (s.cut.Some? && n > 0));
      if n == |p.data| then Next(To(t.(complete := t.complete + [p]), u, Unlock(false)))
      else Next(To(t.(dw := Some(Buffer(p, n))), u, Unlock(true)))
  }

  // ----------------------------------------------------- the socket thread

  /** What the socket thread is woken up for. */
  datatype Wakeup = TakeCommand | OnRead(n: int) | OnWrite | OnEof | OnConnect(ok: bool) | GoOn(r: WriteResult)

  function ServerStep(s: Socket, w: Wakeup): Outcome {
    match s.server
    case Ready =>
      (match w
       case TakeCommand => if s.pipe == [] then Blocked else Obey(s.(pipe := s.pipe[1..]), s.pipe[0])
       case OnRead(n) => if Polled(s) then Forward(s, n) else Blocked
       case OnWrite => if Polled(s) then BeginFlush(s) else Blocked
       case OnEof => if Polled(s) then Next(FreeLists(s, s.kind != HalfcloseRead, false)) else Blocked
       case OnConnect(ok) => if s.kind == Connecting then Connect(s, ok) else Blocked
       case GoOn(_) => Blocked)
    case Taking(p) => Next(TakePacket(s, p))
    case Counting => if s.sending == 0 then Fault else Next(s.(sending := s.sending - 1, server := Ready))
    case CheckClose(wasRead, empty) => Next(CloseSocket(s, wasRead, empty))
    case CheckRare(empty) =>
      Next(if (empty && s.sending == 0) || s.kind == HalfcloseWrite then FreeLists(s, false, false)
           else s.(server := Ready))
    case FlushHigh => if w.GoOn? then SendHigh(s, w.r) else Blocked
    case FlushLow => if w.GoOn? then SendLow(s, w.r) else Blocked
    case Freeing(raise, error) =>
      if s.lock.BySender? then Blocked else Next(StoreInvalid(s, raise, error))
  }

  predicate Polled(s: Socket) { s.kind != Invalid && s.kind != Connecting }

  function Obey(s: Socket, c: Command): Outcome {
    match c
    case Send(p) => Next(s.(server := Taking(p)))
    case Trigger => Next(s)
    case Close(shutdown) =>
      if s.kind == Invalid then Next(s)
      else if shutdown then Next(FreeLists(s, s.kind != HalfcloseRead, false))
      else Next(s.(server := CheckClose(s.kind == HalfcloseRead, Empty(s) && s.dw == None)))
    case Resume =>
      if s.kind == Invalid || s.kind == HalfcloseRead then Next(s.(events := s.events + [EvError]))
      else if s.kind == PAccept then Next(s.(kind := Connected, events := s.events + [EvOpen]))
      else if s.kind == Connected then Next(s.(events := s.events + [EvOpen]))
      else Next(s)
  }

  /** send_socket: refuse, or append to a list. */
  function TakePacket(s: Socket, p: Packet): Socket {
    var t := s.(server := Counting);
    if s.kind == PAccept then t.(early := t.early + [p])
    else if s.kind == Invalid || s.kind == HalfcloseWrite || s.closing then t.(lost := t.lost + [p])
    else
      var t' := t.(wbSize := t.wbSize + |p.data|);
      if Empty(s) || p.priority == PriorityHigh then t'.(high := t'.high + [Buffer(p, 0)])
      else t'.(low := t'.low + [Buffer(p, 0)])
  }

  function CloseSocket(s: Socket, wasRead: bool, empty: bool): Socket {
    if (empty && s.sending == 0) || s.kind == HalfcloseWrite then FreeLists(s, !wasRead, false)
    else if wasRead then s.(closing := true, server := Ready)
    else s.(closing := true, kind := HalfcloseRead, events := s.events + [EvClose], server := Ready)
  }

  /** forward_message_tcp; `n < 0` is an error, or nothing to read. */
  function Forward(s: Socket, n: int): Outcome {
    if n < 0 then Next(s.(events := s.events + [EvError]))
    else if n > 0 then Next(if s.kind == HalfcloseRead then s else s.(events := s.events + [EvData]))
    else if s.closing then Next(s.(server := CheckRare(Empty(s) && s.dw == None)))
    else if s.kind == HalfcloseRead then Next(s)
    else if s.kind == HalfcloseWrite then Next(FreeLists(s, true, false))
    else Next(s.(kind := HalfcloseRead, events := s.events + [EvClose]))
  }

  function Connect(s: Socket, ok: bool): Outcome {
    if ok then Next(s.(kind := Connected, events := s.events + [EvOpen])) else Next(FreeLists(s, false, true))
  }

  function PacketsOf(list: seq<Buffer>): (r: seq<Packet>)
    ensures |r| == |list|
  {
    if list == [] then [] else PacketsOf(list[..|list| - 1]) + [list[|list| - 1].packet]
  }

  /** force_close up to its lock: both lists are freed. */
  function FreeLists(s: Socket, raise: bool, error: bool): Socket {
    s.(high := [], low := [],
       lost := s.lost + PacketsOf(s.high) + PacketsOf(s.low),
       cut := if s.high != [] && !s.high[0].Whole() then Some(s.high[0]) else s.cut,
       server := Freeing(raise, error))
  }

  /** force_close under the lock: the socket becomes invalid, and `dw` is freed. */
  function StoreInvalid(s: Socket, raise: bool, error: bool): Socket {
    s.(kind := Invalid, lock := Free, server := Ready,
       lost := if s.dw.Some? then s.lost + [s.dw.value.packet] else s.lost,
       cut := if s.dw.Some? && !s.dw.value.Whole() then s.dw else s.cut,
       dw := None,
       events := s.events + (if raise then [EvClose] else []) + (if error then [EvError] else []))
  }

  /** send_buffer: with the lock, the rest of a direct write goes to the front. */
  function BeginFlush(s: Socket): Outcome {
    if s.lock != Free then Next(s)
    else
      var t := s.(lock := ByServer, server := FlushHigh);
      if s.low != [] && !s.low[0].Whole() then Fault
      else if s.dw.None? then Next(t)
      else
        var b := s.dw.value;
        Next(t.(high := [b] + t.high, dw := None, wbSize := t.wbSize + (|b.packet.data| - b.sent)))
  }

  function EndFlush(s: Socket): Socket { s.(lock := Free, server := Ready) }

  /** `n` bytes of a buffer reach the peer. */
  function Deliver(s: Socket, b: Buffer, n: nat): Socket
    requires b.sent + n <= |b.packet.data|
  {
    s.(bytes := s.bytes + b.packet.data[b.sent..b.sent + n], wbSize := s.wbSize - n)
  }

  function HighDone(s: Socket, b: Buffer, n: nat): Socket
    requires s.high != [] && b.sent + n <= |b.packet.data|
  {
    Deliver(s, b, n).(high := s.high[1..], complete := s.complete + [b.packet])
  }

  function HighPart(s: Socket, b: Buffer, n: nat): Socket
    requires s.high != [] && b.sent + n <= |b.packet.data|
  {
    EndFlush(Deliver(s, b, n).(high := s.high[0 := Buffer(b.packet, b.sent + n)]))
  }

  function LowDone(s: Socket, b: Buffer, n: nat): Socket
    requires s.low != [] && b.sent + n <= |b.packet.data|
  {
    Deliver(s, b, n).(low := s.low[1..], complete := s.complete + [b.packet])
  }

  /** raise_uncomplete: the partly sent head of the low list becomes the high list. */
  function LowPart(s: Socket, b: Buffer, n: nat): Socket
    requires s.low != [] && b.sent + n <= |b.packet.data|
  {
    EndFlush(Deliver(s, b, n).(low := s.low[1..], high := [Buffer(b.packet, b.sent + n)]))
  }

  /** send_list_tcp on the high list, one write at a time. */
  function SendHigh(s: Socket, r: WriteResult): Outcome {
    if s.high == [] then
      if s.low != [] then Next(s.(server := FlushLow)) else Drained(s)
    else
      match r
      case Again => Next(EndFlush(s))
      case Failed => Next(CloseWrite(s))
      case Wrote(n) =>
        var b := s.high[0];
        if b.sent + n > |b.packet.data| then Blocked
        else if b.sent + n == |b.packet.data| then Next(HighDone(s, b, n))
        else Next(HighPart(s, b, n))
  }

  /** The same on the low list; a partly sent head moves to the empty high list. */
  function SendLow(s: Socket, r: WriteResult): Outcome {
    if s.low == [] then Drained(s)
    else
      match r
      case Again => Next(EndFlush(s))
      case Failed => Next(CloseWrite(s))
      case Wrote(n) =>
        var b := s.low[0];
        if b.sent + n > |b.packet.data| then Blocked
        else if b.sent + n == |b.packet.data| then Next(LowDone(s, b, n))
        else if n == 0 then Next(EndFlush(s))
        else if s.high != [] then Fault
        else Next(LowPart(s, b, n))
  }

  /** Both lists have been sent. */
  function Drained(s: Socket): Outcome {
    if s.high != [] || s.low != [] || s.wbSize != 0 then Fault
    else if s.closing then Next(FreeLists(s, false, false))
    else Next(EndFlush(s))
  }

  /** A write failed. */
  function CloseWrite(s: Socket): Socket {
    if s.closing || s.kind == HalfcloseRead then FreeLists(s, false, false)
    else if s.kind == HalfcloseWrite then EndFlush(s)
    else EndFlush(s.(kind := HalfcloseWrite, events := s.events + [EvError]))
  }

  // ------------------------------------------------------------------ runs

  datatype Label =
    | NewThread
    | BeginSend(u: nat, priority: Priority, data: seq<Byte>)
    | SendOn(u: nat, r: WriteResult)
    | Control(c: Command)
    | Serve(w: Wakeup)

  function Exec(s: Socket, x: Label): Outcome {
    match x
    case NewThread => Next(s.(senders := s.senders + [Sender(Away, 0)]))
    case BeginSend(u, priority, data) => Call(s, u, priority, data)
    case SendOn(u, r) => if u < |s.senders| then SenderStep(s, u, r) else Blocked
    case Control(c) => if c.Close? || c.Resume? then Next(s.(pipe := s.pipe + [c])) else Blocked
    case Serve(w) => ServerStep(s, w)
  }

  /** A socket as new_fd leaves it. */
  function Fresh(kind: SocketType): Socket {
    Socket(kind, false, [], [], 0, None, 0, Free, [], Ready, [], [], [], [], [], [], [], None, false)
  }

  predicate Opening(kind: SocketType) { kind == PAccept || kind == Connecting || kind == Connected || kind == Bind }

  function RunAll(kind: SocketType, steps: seq<Label>): Outcome {
    if steps == [] then Next(Fresh(kind))
    else
      var before := RunAll(kind, steps[..|steps| - 1]);
      if before.Next? then Exec(before.s, steps[|steps| - 1]) else before
  }
}
