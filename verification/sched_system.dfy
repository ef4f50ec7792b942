/** The scheduler as a state machine: services with a reference count, their
    message queues, the global list of queues, and any number of activities
    (worker threads, senders, creators, retirers).  One step of an activity is
    one section of the program under one lock, or one atomic operation.

    A service and its queue share the handle as their name.  A queue lives
    longer than its service: the last reference frees the service, and whoever
    owns the queue then drops what is left in it and frees it. */
module SchedSystem {

  type Handle = nat

  /** A message of service `source`.  `error` marks the reply to a dropped message;
      its source is the service that is gone. */
  datatype Message = Message(source: Handle, session: nat, error: bool)

  /** A message queue: its flags and its messages, oldest first. */
  datatype Queue = Queue(inGlobal: bool, release: bool, messages: seq<Message>) {
    /** Somebody must have this queue in hand. */
    predicate Marked() { inGlobal || release }
  }

  datatype Context = Context(ref: nat, init: bool, callback: bool)

  /** What became of a message that was accepted. */
  datatype Fate = Called(m: Message) | Ignored(m: Message) | Dropped(m: Message)

  /** What happened to one service so far: the messages accepted, in order; their
      fates; how often the two objects were freed. */
  datatype Log = Log(accepted: seq<Message>, fates: seq<Fate>, contextFrees: nat, queueFrees: nat)

  /** A message and the service that it is for. */
  datatype Letter = Letter(receiver: Handle, m: Message)

  /** Where an activity continues after it gave up a reference. */
  datatype After =
    | ToDone
    | ToIdle
    | ToLookup(q: Handle)
    | ToRetire(h: Handle)
    | ToClose(h: Handle)
    | ToPublish(h: Handle)

  datatype Activity =
    // a worker
    | Idle
    | Lookup(q: Handle)
    | Run(q: Handle, i: nat, n: nat)
    | Got(q: Handle, i: nat, n: nat, m: Message)
    | Calling(q: Handle, i: nat, n: nat)
    | Swap(q: Handle, next: Handle)
    // giving up a reference, and freeing the service with the last one
    | Releasing(h: Handle, after: After)
    | Deleting(h: Handle, after: After)
    // closing the queue of a service that is no longer registered
    | Closing(q: Handle, after: After)
    | Dropping(q: Handle, after: After)
    | Freeing(q: Handle, after: After)
    // sending, and any other brief use of a service
    | Pushing(h: Handle, m: Message)
    | Grabbed(h: Handle, m: Message)
    | Probing(h: Handle)
    | Retiring(h: Handle, after: After)
    // creating a service
    | Creating
    | Initing(h: Handle)
    | SettingInit(h: Handle)
    | Publishing(h: Handle, kept: bool)
    // the creator, and then its caller, read the handle of the new service
    | Announcing(h: Handle)
    | Answering(h: Handle)
    | Done

  datatype System = System(
    next: Handle,
    registered: set<Handle>,
    contexts: map<Handle, Context>,
    queues: map<Handle, Queue>,
    global: seq<Handle>,
    activities: seq<Activity>,
    logs: map<Handle, Log>,
    refused: seq<Letter>)

  /** Handle 0 is reserved. */
  const START := System(1, {}, map[], map[], [], [], map[], [])

  /** What the outside decides: does a module's init succeed, what does a service
      set its callback to, the weight of the worker; is there a logger to which a
      launch is announced, and does the caller ask for the handle of what it launched. */
  datatype Choice = Choice(initOk: bool, callback: bool, weight: int, logger: bool, asked: bool)

  /** `Fault`: a failed assertion, or a use of something already freed. */
  datatype Outcome = Blocked | Fault | Next(s: System)

  function Resume(after: After): Activity {
    match after
    case ToDone => Done
    case ToIdle => Idle
    case ToLookup(q) => Lookup(q)
    case ToRetire(h) => Retiring(h, ToClose(h))
    case ToClose(h) => Closing(h, ToDone)
    case ToPublish(h) => Publishing(h, false)
  }

  // ------------------------------------------------ parts of one step

  function At(s: System, a: nat, x: Activity): System
    requires a < |s.activities|
  {
    s.(activities := s.activities[a := x])
  }

  function WithQueue(s: System, q: Handle, v: Queue): System { s.(queues := s.queues[q := v]) }

  function WithContext(s: System, h: Handle, v: Context): System { s.(contexts := s.contexts[h := v]) }

  function LogOf(s: System, h: Handle): Log { if h in s.logs then s.logs[h] else Log([], [], 0, 0) }

  function WithLog(s: System, h: Handle, v: Log): System { s.(logs := s.logs[h := v]) }

  function WithFate(s: System, h: Handle, f: Fate): System {
    var l := LogOf(s, h);
    WithLog(s, h, l.(fates := l.fates + [f]))
  }

  /** The receiver is not registered: the message goes nowhere. */
  function Refuse(s: System, h: Handle, m: Message): System { s.(refused := s.refused + [Letter(h, m)]) }

  /** A queue that is still linked must not be linked again. */
  function PushGlobal(s: System, q: Handle): Outcome {
    if q !in s.queues || q in s.global then Fault else Next(s.(global := s.global + [q]))
  }

  function Grab(s: System, h: Handle): Outcome {
    if h !in s.contexts then Fault
    else Next(WithContext(s, h, s.contexts[h].(ref := s.contexts[h].ref + 1)))
  }

  /** Adding a message; the queue joins the global list unless it is marked as being there. */
  function PushMessage(s: System, h: Handle, m: Message): Outcome {
    if h !in s.queues then Fault
    else
      var q := s.queues[h];
      var l := LogOf(s, h);
      var s' := WithLog(WithQueue(s, h, q.(inGlobal := true, messages := q.messages + [m])), h,
                        l.(accepted := l.accepted + [m]));
      if q.inGlobal then Next(s') else PushGlobal(s', h)
  }

  function Half(n: nat, weight: nat): nat
    decreases weight
  {
    if weight == 0 then n else Half(n / 2, weight - 1)
  }

  // ---------------------------------------------------------- the steps

  function Go(s: System, a: nat, c: Choice): Outcome
    requires a < |s.activities|
  {
    match s.activities[a]
    case Idle => PopGlobal(s, a)
    case Lookup(q) => GoLookup(s, a, q)
    case Run(q, i, n) => if i < n then GoPop(s, a, q, i, n) else GoEnd(s, a, q)
    case Got(q, i, n, m) => GoCall(s, a, c, q, i, n, m)
    case Calling(q, i, n) => GoReturn(s, a, c, q, i, n)
    case Swap(q, next) => AndThen(PushGlobal(s, q), a, Releasing(q, ToLookup(next)))
    case Releasing(h, after) => GoRelease(s, a, h, Deleting(h, after), Resume(after))
    case Deleting(h, after) => AndThen(Delete(s, h), a, Resume(after))
    case Closing(q, after) => GoClose(s, a, q, after)
    case Dropping(q, after) => GoDrop(s, a, q, after)
    case Freeing(q, after) => GoFree(s, a, q, after)
    case Pushing(h, m) => if h in s.registered then GoGrab(s, a, h,
      Grabbed(h, m)) else Next(At(Refuse(s, h, m), a, Done))
    case Grabbed(h, m) => AndThen(PushMessage(s, h, m), a, Releasing(h, ToDone))
    case Probing(h) => GoGrab(s, a, h, Releasing(h, ToDone))
    case Retiring(h, after) =>
      if h in s.registered then Next(At(s.(registered := s.registered - {h}), a, Releasing(h, after)))
      else Next(At(s, a, Resume(after)))
    case Creating => Next(GoCreate(s, a))
    case Initing(h) => GoInited(s, a, c, h)
    case SettingInit(h) => AndThen(SetInit(s, h), a, Publishing(h, true))
    case Publishing(h, kept) => AndThen(PushGlobal(s, h), a, if kept then Launched(h, c) else Done)
    case Announcing(h) => GoRead(s, a, h, Returned(h, c))
    case Answering(h) => GoRead(s, a, h, Done)
    case Done => Blocked
  }

  function AndThen(o: Outcome, a: nat, x: Activity): Outcome {
    if o.Next? && a < |o.s.activities| then Next(At(o.s, a, x)) else o
  }

  function PopGlobal(s: System, a: nat): Outcome
    requires a < |s.activities|
  {
    if s.global == [] then Next(s) else Next(At(s.(global := s.global[1..]), a, Lookup(s.global[0])))
  }

  function GoLookup(s: System, a: nat, q: Handle): Outcome
    requires a < |s.activities|
  {
    if q !in s.queues then Fault
    else if q in s.registered then AndThen(Grab(s, q), a, Run(q, 0, 1))
    else Next(At(s, a, Closing(q, ToIdle)))
  }

  /** The worker takes a message, or finds none and lets go of the queue. */
  function GoPop(s: System, a: nat, q: Handle, i: nat, n: nat): Outcome
    requires a < |s.activities|
  {
    if q !in s.queues then Fault
    else
      var v := s.queues[q];
      if v.messages == [] then Next(At(WithQueue(s, q, v.(inGlobal := false)), a, Releasing(q, ToIdle)))
      else Next(At(WithQueue(s, q, v.(messages := v.messages[1..])), a, Got(q, i, n, v.messages[0])))
  }

  /** After its share of messages the worker turns to the next queue, if any. */
  function GoEnd(s: System, a: nat, q: Handle): Outcome
    requires a < |s.activities|
  {
    if s.global == [] then Next(At(s, a, Releasing(q, ToLookup(q))))
    else Next(At(s.(global := s.global[1..]), a, Swap(q, s.global[0])))
  }

  /** A worker of weight 0 or more takes a share of the messages that it found waiting. */
  function Share(waiting: nat, n: nat, i: nat, weight: int): nat {
    if i == 0 && weight >= 0 then Half(waiting, weight) else n
  }

  function GoCall(s: System, a: nat, c: Choice, q: Handle, i: nat, n: nat, m: Message): Outcome
    requires a < |s.activities|
  {
    if q !in s.queues || q !in s.contexts then Fault
    else
      var n' := Share(|s.queues[q].messages|, n, i, c.weight);
      if !s.contexts[q].callback then Next(At(WithFate(s, q, Ignored(m)), a, Run(q, i + 1, n')))
      else if !s.contexts[q].init then Fault
      else Next(At(WithFate(s, q, Called(m)), a, Calling(q, i, n')))
  }

  function GoReturn(s: System, a: nat, c: Choice, q: Handle, i: nat, n: nat): Outcome
    requires a < |s.activities|
  {
    if q !in s.contexts then Fault
    else Next(At(WithContext(s, q, s.contexts[q].(callback := c.callback)), a, Run(q, i + 1, n)))
  }

  /** One reference less; `last` continues when it was the last one. */
  function GoRelease(s: System, a: nat, h: Handle, last: Activity, other: Activity): Outcome
    requires a < |s.activities|
  {
    if h !in s.contexts || s.contexts[h].ref == 0 then Fault
    else
      var ref := s.contexts[h].ref;
      Next(At(WithContext(s, h, s.contexts[h].(ref := ref - 1)), a, if ref == 1 then last else other))
  }

  /** Freeing a service marks its queue; a queue that nobody has in hand joins the global list. */
  function Delete(s: System, h: Handle): Outcome {
    if h !in s.contexts || h !in s.queues || s.queues[h].release then Fault
    else
      var l := LogOf(s, h);
      var s' := WithLog(WithQueue(s, h, s.queues[h].(release := true)), h, l.(contextFrees := l.contextFrees + 1))
                .(contexts := s.contexts - {h});
      if s.queues[h].inGlobal then Next(s') else PushGlobal(s', h)
  }

  function GoClose(s: System, a: nat, q: Handle, after: After): Outcome
    requires a < |s.activities|
  {
    if q !in s.queues then Fault
    else if s.queues[q].release then Next(At(s, a, Dropping(q, after)))
    else AndThen(PushGlobal(s, q), a, Resume(after))
  }

  /** Each message left in a closed queue is dropped, and its source is told. */
  function GoDrop(s: System, a: nat, q: Handle, after: After): Outcome
    requires a < |s.activities|
  {
    if q !in s.queues then Fault
    else
      var v := s.queues[q];
      if v.messages == [] then Next(At(WithQueue(s, q, v.(inGlobal := false)), a, Freeing(q, after)))
      else if q == 0 then Fault
      else
        var m := v.messages[0];
        var s' := WithFate(WithQueue(s, q, v.(messages := v.messages[1..])), q, Dropped(m));
        Next(s'.(activities := s'.activities + [Pushing(m.source, Message(q, 0, true))]))
  }

  function GoFree(s: System, a: nat, q: Handle, after: After): Outcome
    requires a < |s.activities|
  {
    if q !in s.queues || q in s.global then Fault
    else
      var l := LogOf(s, q);
      Next(At(WithLog(s.(queues := s.queues - {q}), q, l.(queueFrees := l.queueFrees + 1)), a, Resume(after)))
  }

  function GoGrab(s: System, a: nat, h: Handle, x: Activity): Outcome
    requires a < |s.activities|
  {
    if h in s.registered then AndThen(Grab(s, h), a, x) else Next(At(s, a, Done))
  }

  /** A new service has two references: the registry's and its creator's.  Its
      queue is marked, so that only the creator will link it. */
  function GoCreate(s: System, a: nat): System
    requires a < |s.activities|
  {
    var h := s.next;
    At(WithQueue(WithContext(s, h, Context(2, false, false)), h, Queue(true, false, []))
       .(next := h + 1, registered := s.registered + {h}, logs := s.logs[h := Log([], [], 0, 0)]), a, Initing(h))
  }

  /** After the module's init: on success the creator gives up its reference. */
  function GoInited(s: System, a: nat, c: Choice, h: Handle): Outcome
    requires a < |s.activities|
  {
    if h !in s.contexts || s.contexts[h].ref == 0 then Fault
    else
      var x := s.contexts[h].(callback := c.callback);
      if !c.initOk then Next(At(WithContext(s, h, x), a, Releasing(h, ToRetire(h))))
      else Next(At(WithContext(s, h, x.(ref := x.ref - 1)), a,
        if x.ref == 1 then Deleting(h, ToPublish(h)) else SettingInit(h)))
  }

  /** The creator gave up its reference before this step; see `FaultExactly`. */
  function SetInit(s: System, h: Handle): Outcome {
    if h in s.contexts then Next(WithContext(s, h, s.contexts[h].(init := true))) else Fault
  }

  /** The launch is announced to the logger, if there is one, and then the call returns. */
  function Launched(h: Handle, c: Choice): Activity { if c.logger then Announcing(h) else Returned(h, c) }

  /** The caller of skynet_context_new has the service without a reference. */
  function Returned(h: Handle, c: Choice): Activity { if c.asked then Answering(h) else Done }

  /** Reading the handle out of a service; the reader has no reference, see `FaultExactly`. */
  function GoRead(s: System, a: nat, h: Handle, x: Activity): Outcome
    requires a < |s.activities|
  {
    if h in s.contexts then Next(At(s, a, x)) else Fault
  }

  // ------------------------------------------------------------------ runs

  /** Any activity may begin at any time, and any activity may make its next step. */
  datatype Label = Begin(x: Activity) | Act(a: nat, c: Choice)

  predicate Entry(x: Activity) {
    match x
    case Idle => true
    case Pushing(_, m) => !m.error
    case Probing(_) => true
    case Creating => true
    case Retiring(_, after) => after == ToDone
    case _ => false
  }

  function Exec(s: System, next: Label): Outcome {
    match next
    case Begin(x) => if Entry(x) then Next(s.(activities := s.activities + [x])) else Blocked
    case Act(a, c) => if a < |s.activities| then Go(s, a, c) else Blocked
  }

  /** A run: labels executed one after the other. */
  function RunAll(steps: seq<Label>): Outcome {
    if steps == [] then Next(START)
    else
      var before := RunAll(steps[..|steps| - 1]);
      if before.Next? then Exec(before.s, steps[|steps| - 1]) else before
  }
}
