/** The hierarchical timing wheel of skynet_timer.c.

    The wheel is proved against a schedule: with an unbounded clock, the timers
    dispatched so far are exactly those due by now, each at its due tick, and
    timers due at the same tick in the order in which they were added. */
module TimerSchedule {

  /** The message to send when a timer fires. */
  datatype Event = Event(handle: nat, session: int)

  /** An event and the tick (of an unbounded clock) it is due at, or fired at. */
  datatype Timeout = Timeout(tick: nat, event: Event)

  /** The timeouts of tick `n`, in the order in which they were added. */
  function DueAt(added: seq<Timeout>, n: nat): seq<Timeout> {
    if added == [] then []
    else
      var last := added[|added| - 1];
      DueAt(added[..|added| - 1], n) + if last.tick == n then [last] else []
  }

  /** Everything due by tick `n`, tick after tick. */
  function DueBy(added: seq<Timeout>, n: nat): seq<Timeout> {
    if n == 0 then [] else DueBy(added, n - 1) + DueAt(added, n)
  }

  lemma DueAtAppend(added: seq<Timeout>, t: Timeout, n: nat)
    ensures DueAt(added + [t], n) == DueAt(added, n) + if t.tick == n then [t] else []
  {
    assert (added + [t])[..|added|] == added;
  }

  /** Timers added for later do not change what was due before. */
  lemma {:induction false} DueByAppend(added: seq<Timeout>, t: Timeout, n: nat)
    requires t.tick > n
    ensures DueBy(added + [t], n) == DueBy(added, n)
  {
    if n > 0 {
      DueByAppend(added, t, n - 1);
      DueAtAppend(added, t, n);
    }
  }

  /** How often a timer occurs in a list. */
  function Times(s: seq<Timeout>, t: Timeout): nat {
    if s == [] then 0 else Times(s[..|s| - 1], t) + if s[|s| - 1] == t then 1 else 0
  }

  lemma {:induction false} TimesConcat(a: seq<Timeout>, b: seq<Timeout>, t: Timeout)
    ensures Times(a + b, t) == Times(a, t) + Times(b, t)
  {
    if b == [] {
      assert a + b == a;
    } else {
      assert (a + b)[..|a + b| - 1] == a + b[..|b| - 1];
      TimesConcat(a, b[..|b| - 1], t);
    }
  }

  lemma {:induction false} DueAtCount(added: seq<Timeout>, n: nat, t: Timeout)
    ensures Times(DueAt(added, n), t) == if t.tick == n then Times(added, t) else 0
  {
    if added != [] {
      var k := |added| - 1;
      DueAtCount(added[..k], n, t);
      if added[k].tick == n {
        TimesConcat(DueAt(added[..k], n), [added[k]], t);
      } else {
        assert DueAt(added, n) == DueAt(added[..k], n);
      }
    }
  }

  /** Exactly once: the schedule holds each timer as often as it was added if
      it is due, and never before. */
  lemma {:induction false} DueByCount(added: seq<Timeout>, n: nat, t: Timeout)
    requires t.tick > 0
    ensures Times(DueBy(added, n), t) == if t.tick <= n then Times(added, t) else 0
  {
    if n > 0 {
      DueByCount(added, n - 1, t);
      DueAtCount(added, n, t);
      TimesConcat(DueBy(added, n - 1), DueAt(added, n), t);
    }
  }

  lemma {:induction false} DueAtTicks(added: seq<Timeout>, n: nat)
    ensures forall t <- DueAt(added, n) :: t.tick == n
  {
    if added != [] {
      DueAtTicks(added[..|added| - 1], n);
    }
  }

  /** On time: the schedule is ordered by tick. */
  lemma {:induction false} DueByOrdered(added: seq<Timeout>, n: nat)
    ensures forall i, j :: 0 <= i < j < |DueBy(added, n)| ==> DueBy(added, n)[i].tick <= DueBy(added, n)[j].tick
    ensures forall t <- DueBy(added, n) :: 0 < t.tick <= n
  {
    if n > 0 {
      DueByOrdered(added, n - 1);
      DueAtTicks(added, n);
    }
  }

  /** In order: what the schedule says about one tick is the order of addition. */
  lemma {:induction false} DueByTick(added: seq<Timeout>, n: nat, k: nat)
    requires 0 < k
    ensures DueAt(DueBy(added, n), k) == if k <= n then DueAt(added, k) else []
  {
    if n > 0 {
      DueByTick(added, n - 1, k);
      LaterTick(added, DueBy(added, n - 1), n, k);
    }
  }

  lemma LaterTick(added: seq<Timeout>, before: seq<Timeout>, n: nat, k: nat)
    requires 0 < n && DueAt(before, k) == if k < n then DueAt(added, k) else []
    ensures DueAt(before + DueAt(added, n), k) == if k <= n then DueAt(added, k) else []
  {
    DueAtConcat(before, DueAt(added, n), k);
    DueAtAgain(added, n, k);
  }

  lemma {:induction false} DueAtConcat(a: seq<Timeout>, b: seq<Timeout>, k: nat)
    ensures DueAt(a + b, k) == DueAt(a, k) + DueAt(b, k)
  {
    if b == [] {
      assert a + b == a;
    } else {
      var m := |b| - 1;
      assert a + b == (a + b[..m]) + [b[m]];
      DueAtAppend(a + b[..m], b[m], k);
      DueAtConcat(a, b[..m], k);
    }
  }

  lemma {:induction false} DueAtAgain(added: seq<Timeout>, n: nat, k: nat)
    ensures DueAt(DueAt(added, n), k) == if k == n then DueAt(added, n) else []
  {
    if added != [] {
      var m := |added| - 1;
      DueAtAgain(added[..m], n, k);
      if added[m].tick == n {
        DueAtAppend(DueAt(added[..m], n), added[m], k);
      } else {
        assert DueAt(added, n) == DueAt(added[..m], n);
      }
    }
  }
}

module TimerWheel {
  import opened TimerPlace
  import opened TimerSchedule

  datatype Node = Node(expire: Word, event: Event)

  /** A call of timer_add: a positive C int and the event. */
  datatype Request = Request(delay: nat, event: Event) {
    predicate Ok() { 0 < delay < HALF }
  }

  /** The events of a list that expire at `e`, in list order. */
  function Expiring(list: seq<Node>, e: Word): seq<Event> {
    if list == [] then []
    else
      var last := list[|list| - 1];
      Expiring(list[..|list| - 1], e) + if last.expire == e then [last.event] else []
  }

  /** The nodes of a list that belong in slot `p` at clock `now`, in list order. */
  function Belonging(list: seq<Node>, p: Place, now: Word): seq<Node> {
    if list == [] then []
    else
      var last := list[|list| - 1];
      Belonging(list[..|list| - 1], p, now) + if PlaceOf(last.expire, now) == p then [last] else []
  }

  lemma ExpiringAppend(list: seq<Node>, n: Node, e: Word)
    ensures Expiring(list + [n], e) == Expiring(list, e) + if n.expire == e then [n.event] else []
  {
    assert (list + [n])[..|list|] == list;
  }

  lemma BelongingAppend(list: seq<Node>, n: Node, p: Place, now: Word)
    ensures Belonging(list + [n], p, now) == Belonging(list, p, now) + if PlaceOf(n.expire, now) == p then [n] else []
  {
    assert (list + [n])[..|list|] == list;
  }

  lemma {:induction false} ExpiringConcat(a: seq<Node>, b: seq<Node>, e: Word)
    ensures Expiring(a + b, e) == Expiring(a, e) + Expiring(b, e)
  {
    if b == [] {
      assert a + b == a;
    } else {
      var m := |b| - 1;
      assert a + b == (a + b[..m]) + [b[m]];
      ExpiringAppend(a + b[..m], b[m], e);
      ExpiringConcat(a, b[..m], e);
    }
  }

  /** A node that expires at `e` belongs in one slot only, with all others that expire then. */
  lemma {:induction false} ExpiringBelonging(list: seq<Node>, p: Place, now: Word, e: Word)
    ensures Expiring(Belonging(list, p, now), e) == if PlaceOf(e, now) == p then Expiring(list, e) else []
  {
    if list != [] {
      var m := |list| - 1;
      var last := list[m];
      ExpiringBelonging(list[..m], p, now, e);
      if PlaceOf(last.expire, now) == p {
        ExpiringAppend(Belonging(list[..m], p, now), last, e);
      } else {
        assert Belonging(list, p, now) == Belonging(list[..m], p, now);
      }
    }
  }

  lemma {:induction false} BelongingAll(list: seq<Node>, p: Place, now: Word)
    ensures forall n <- Belonging(list, p, now) :: n in list && PlaceOf(n.expire, now) == p
  {
    if list != [] {
      BelongingAll(list[..|list| - 1], p, now);
    }
  }

  lemma {:induction false} ExpiringNone(list: seq<Node>, e: Word)
    requires forall n <- list :: n.expire != e
    ensures Expiring(list, e) == []
  {
    if list != [] {
      ExpiringNone(list[..|list| - 1], e);
    }
  }

  lemma {:induction false} ExpiringAll(list: seq<Node>, e: Word)
    requires forall n <- list :: n.expire == e
    ensures Expiring(list, e) == Events(list)
  {
    if list != [] {
      ExpiringAll(list[..|list| - 1], e);
    }
  }

  function Events(list: seq<Node>): (r: seq<Event>)
    ensures |r| == |list|
  {
    if list == [] then [] else Events(list[..|list| - 1]) + [list[|list| - 1].event]
  }

  function Stamp(events: seq<Event>, tick: nat): (r: seq<Timeout>)
    ensures |r| == |events|
  {
    if events == [] then [] else Stamp(events[..|events| - 1], tick) + [Timeout(tick, events[|events| - 1])]
  }

  // ------------------------------------------------- the wheel as a value

  /** The lists of all slots. */
  type Slots = imap<Place, seq<Node>>

  predicate Full(v: Slots, p: Place) { ValidPlace(p) <==> p in v }

  ghost predicate Complete(v: Slots) { forall p :: Full(v, p) }

  /** Every node is where the clock says. */
  ghost predicate Placed(v: Slots, now: Word) {
    forall p, n: Node :: p in v && n in v[p] ==> PlaceOf(n.expire, now) == p
  }

  /** The pending events that expire when the 32-bit clock shows `e`. */
  ghost function Pending(v: Slots, e: Word, now: Word): seq<Event>
    requires Complete(v)
  {
    assert Full(v, PlaceOf(e, now));
    Expiring(v[PlaceOf(e, now)], e)
  }

  /** An unbounded clock, all timers added so far, and all timers dispatched so far. */
  datatype History = History(clock: nat, added: seq<Timeout>, fired: seq<Timeout>)

  /** The next tick at which the 32-bit clock shows `e`, counting the current one. */
  function TickOf(e: Word, now: Word, clock: nat): nat { clock + Distance(e, now) }

  /** What the wheel holds for `e`: the timers due at its tick, unless that tick is done. */
  ghost predicate AgreesOn(v: Slots, e: Word, now: Word, h: History, done: nat)
    requires Complete(v)
  {
    var tick := TickOf(e, now, h.clock);
    Stamp(Pending(v, e, now), tick) == if tick > done then DueAt(h.added, tick) else []
  }

  ghost predicate InRange(h: History) { forall a <- h.added :: a.tick < h.clock + HALF }

  /** The wheel holds the timers that are due after tick `done`, and no others;
      the timers dispatched are those due by `done`. */
  ghost predicate Agrees(v: Slots, now: Word, h: History, done: nat) {
    match h
    case History(clock, added, fired) =>
      && Complete(v)
      && Placed(v, now)
      && now == clock % WORD
      && InRange(h)
      && (forall e: Word :: AgreesOn(v, e, now, h, done))
      && fired == DueBy(added, done)
  }

  ghost function AddTo(v: Slots, n: Node, now: Word): Slots
    requires Complete(v)
  {
    assert Full(v, PlaceOf(n.expire, now));
    v[PlaceOf(n.expire, now) := v[PlaceOf(n.expire, now)] + [n]]
  }

  /** A slot emptied, and nodes put where they belong. */
  ghost function Moved(v: Slots, from: Place, nodes: seq<Node>, now: Word): Slots {
    imap p | p in v :: (if p == from then [] else v[p]) + Belonging(nodes, p, now)
  }

  lemma EmptiedView(v: Slots, w: Slots, from: Place, now: Word)
    requires Complete(v) && Complete(w)
    requires forall p | ValidPlace(p) :: p in v && p in w && w[p] == if p == from then [] else v[p]
    ensures w == Moved(v, from, [], now)
  {
    forall p
      ensures p in v <==> p in w
      ensures p in v ==> w[p] == Moved(v, from, [], now)[p]
    {
      assert Full(v, p) && Full(w, p);
    }
  }

  lemma PrefixStep<T>(s: seq<T>, k: nat)
    requires k < |s|
    ensures s[..k + 1] == s[..k] + [s[k]]
  {
  }

  lemma MovedStep(v: Slots, from: Place, nodes: seq<Node>, n: Node, now: Word)
    requires Complete(v)
    ensures Complete(Moved(v, from, nodes, now))
    ensures AddTo(Moved(v, from, nodes, now), n, now) == Moved(v, from, nodes + [n], now)
  {
    var w := Moved(v, from, nodes, now);
    forall p ensures Full(w, p) { assert Full(v, p); }
    assert Full(v, PlaceOf(n.expire, now));
    forall p | p in v
      ensures AddTo(w, n, now)[p] == Moved(v, from, nodes + [n], now)[p]
    {
      BelongingAppend(nodes, n, p, now);
      var base := if p == from then [] else v[p];
      assert base + (Belonging(nodes, p, now) + [n]) == (base + Belonging(nodes, p, now)) + [n];
    }
  }

  lemma StampAppend(events: seq<Event>, e: Event, tick: nat)
    ensures Stamp(events + [e], tick) == Stamp(events, tick) + [Timeout(tick, e)]
  {
    assert (events + [e])[..|events|] == events;
  }

  /** The 32-bit sum of the clock and a delay. */
  function ExpireOf(now: Word, delay: Word): Word {
    if delay + now < WORD then delay + now else delay + now - WORD
  }

  lemma ExpireTick(now: Word, delay: nat, clock: nat)
    requires 0 < delay < HALF
    ensures ExpireOf(now, delay) == (now + delay) % WORD
    ensures Distance(ExpireOf(now, delay), now) == delay
  {
  }

  lemma AddPending(v: Slots, n: Node, now: Word, e: Word)
    requires Complete(v)
    ensures Complete(AddTo(v, n, now))
    ensures Pending(AddTo(v, n, now), e, now) == Pending(v, e, now) + if n.expire == e then [n.event] else []
  {
    var w := AddTo(v, n, now);
    forall p ensures Full(w, p) { assert Full(v, p); }
    assert Full(v, PlaceOf(e, now));
    ExpiringAppend(v[PlaceOf(e, now)], n, e);
  }

  lemma AddPlaced(v: Slots, n: Node, now: Word)
    requires Complete(v) && Placed(v, now)
    ensures Complete(AddTo(v, n, now)) && Placed(AddTo(v, n, now), now)
  {
    AddPending(v, n, now, n.expire);
    assert Full(v, PlaceOf(n.expire, now));
  }

  function Requested(h: History, r: Request): History {
    h.(added := h.added + [Timeout(h.clock + r.delay, r.event)])
  }

  function Ticked(h: History): History { h.(clock := h.clock + 1) }

  function Fired(h: History, batch: seq<Timeout>): History { h.(fired := h.fired + batch) }

  function RequestedAll(h: History, rs: seq<Request>): (r: History)
    ensures r.clock == h.clock && r.fired == h.fired && h.added <= r.added
  {
    if rs == [] then h else Requested(RequestedAll(h, rs[..|rs| - 1]), rs[|rs| - 1])
  }

  lemma AddAgreesOn(v: Slots, now: Word, h: History, r: Request, e: Word)
    requires Complete(v) && r.Ok() && AgreesOn(v, e, now, h, h.clock)
    ensures var w := AddTo(v, Node(ExpireOf(now, r.delay), r.event), now);
            Complete(w) && AgreesOn(w, e, now, Requested(h, r), h.clock)
  {
    var n := Node(ExpireOf(now, r.delay), r.event);
    var last := Timeout(h.clock + r.delay, r.event);
    ExpireTick(now, r.delay, h.clock);
    AddPending(v, n, now, e);
    DueAtAppend(h.added, last, TickOf(e, now, h.clock));
    SameTick(e, n.expire, now, h.clock);
    if e == n.expire {
      StampAppend(Pending(v, e, now), r.event, last.tick);
    } else {
      assert Pending(v, e, now) + [] == Pending(v, e, now);
    }
  }

  /** Starting a timer keeps the agreement. */
  lemma AddKeeps(v: Slots, now: Word, h: History, r: Request)
    requires Agrees(v, now, h, h.clock) && r.Ok()
    ensures Agrees(AddTo(v, Node(ExpireOf(now, r.delay), r.event), now), now, Requested(h, r), h.clock)
  {
    var n := Node(ExpireOf(now, r.delay), r.event);
    var last := Timeout(h.clock + r.delay, r.event);
    AddPlaced(v, n, now);
    forall e: Word
      ensures AgreesOn(AddTo(v, n, now), e, now, Requested(h, r), h.clock)
    {
      AddAgreesOn(v, now, h, r, e);
    }
    DueByAppend(h.added, last, h.clock);
    forall a | a in Requested(h, r).added ensures a.tick < h.clock + HALF { assert a in h.added || a == last; }
  }

  lemma SameTick(a: Word, b: Word, now: Word, clock: nat)
    ensures TickOf(a, now, clock) == TickOf(b, now, clock) <==> a == b
  {
  }

  lemma {:induction false} ExpiringSome(list: seq<Node>, n: Node)
    requires n in list
    ensures Expiring(list, n.expire) != []
  {
    var m := |list| - 1;
    if n in list[..m] {
      ExpiringSome(list[..m], n);
    }
  }

  lemma {:induction false} DueAtSome(added: seq<Timeout>, n: nat)
    requires DueAt(added, n) != []
    ensures exists a <- added :: a.tick == n
  {
    var m := |added| - 1;
    if added[m].tick != n {
      DueAtSome(added[..m], n);
    }
  }

  /** Whatever is in the wheel lies in the near future. */
  lemma PendingAhead(v: Slots, now: Word, h: History, p: Place, n: Node)
    requires Agrees(v, now, h, h.clock) && p in v && n in v[p]
    ensures 0 < Distance(n.expire, now) < HALF
  {
    ExpiringSome(v[p], n);
    assert AgreesOn(v, n.expire, now, h, h.clock);
    DueAtSome(h.added, TickOf(n.expire, now, h.clock));
  }

  /** Nodes that expire at `e` are in the slot of `e` only. */
  lemma ElsewhereNone(v: Slots, now: Word, p: Place, e: Word)
    requires Placed(v, now) && p in v && p != PlaceOf(e, now)
    ensures Expiring(v[p], e) == []
  {
    ExpiringNone(v[p], e);
  }

  /** The wheel after the clock advanced and the cascade ran. */
  ghost function Cascaded(v: Slots, ct: Word): Slots {
    match CascadeAt(ct)
    case NoCascade => v
    case Empties(level, idx) =>
      if Level(level, idx) in v then Moved(v, Level(level, idx), v[Level(level, idx)], ct) else v
  }

  lemma CascadePlaced(v: Slots, now: Word, h: History)
    requires Agrees(v, now, h, h.clock)
    ensures Complete(Cascaded(v, Next(now))) && Placed(Cascaded(v, Next(now)), Next(now))
  {
    var w := Cascaded(v, Next(now));
    forall p ensures Full(w, p) { assert Full(v, p); }
    forall p, n: Node | p in w && n in w[p]
      ensures PlaceOf(n.expire, Next(now)) == p
    {
      match CascadeAt(Next(now))
      case NoCascade =>
        PendingAhead(v, now, h, p, n);
        TickMovesOnlyCascade(n.expire, now);
      case Empties(level, idx) =>
        var from := Level(level, idx);
        assert Full(v, from);
        BelongingAll(v[from], p, Next(now));
        if p != from && n in v[p] {
          PendingAhead(v, now, h, p, n);
          TickMovesOnlyCascade(n.expire, now);
        }
    }
  }

  /** The cascade loses, invents and reorders nothing. */
  lemma CascadePending(v: Slots, now: Word, h: History, e: Word)
    requires Agrees(v, now, h, h.clock) && Complete(Cascaded(v, Next(now)))
    ensures Pending(Cascaded(v, Next(now)), e, Next(now)) == Pending(v, e, now)
  {
    var p, q := PlaceOf(e, now), PlaceOf(e, Next(now));
    assert Full(v, p) && Full(v, q);
    if Expiring(v[p], e) == [] {
      NonePending(v, now, e, q);
      match CascadeAt(Next(now))
      case NoCascade =>
      case Empties(level, idx) =>
        var from := Level(level, idx);
        assert Full(v, from);
        NonePending(v, now, e, from);
        CascadeSlot(v, from, q, e, Next(now));
    } else {
      ExpiringWitness(v[p], e);
      var n :| n in v[p] && n.expire == e;
      PendingAhead(v, now, h, p, n);
      TickMovesOnlyCascade(e, now);
      match CascadeAt(Next(now))
      case NoCascade =>
      case Empties(level, idx) =>
        var from := Level(level, idx);
        assert Full(v, from);
        CascadeSlot(v, from, q, e, Next(now));
        if p == from {
          ElsewhereNone(v, now, q, e);
        } else {
          ElsewhereNone(v, now, from, e);
        }
    }
  }

  lemma {:induction false} ExpiringWitness(list: seq<Node>, e: Word)
    requires Expiring(list, e) != []
    ensures exists n <- list :: n.expire == e
  {
    var m := |list| - 1;
    if list[m].expire != e {
      ExpiringWitness(list[..m], e);
    }
  }

  lemma NonePending(v: Slots, now: Word, e: Word, p: Place)
    requires Placed(v, now) && p in v
    requires PlaceOf(e, now) in v && Expiring(v[PlaceOf(e, now)], e) == []
    ensures Expiring(v[p], e) == []
  {
    if p != PlaceOf(e, now) {
      ElsewhereNone(v, now, p, e);
    }
  }

  /** What the destination slot of `e` holds for `e` after the cascade. */
  lemma CascadeSlot(v: Slots, from: Place, q: Place, e: Word, ct: Word)
    requires from in v && q in v && q == PlaceOf(e, ct)
    ensures q in Moved(v, from, v[from], ct)
    ensures Expiring(Moved(v, from, v[from], ct)[q], e)
            == (if q == from then [] else Expiring(v[q], e)) + Expiring(v[from], e)
  {
    ExpiringConcat(if q == from then [] else v[q], Belonging(v[from], q, ct), e);
    ExpiringBelonging(v[from], q, ct, e);
  }

  lemma NextTick(e: Word, now: Word, clock: nat)
    requires now == clock % WORD
    ensures Next(now) == (clock + 1) % WORD
    ensures TickOf(e, Next(now), clock + 1) == if e == now then clock + WORD else TickOf(e, now, clock)
    ensures TickOf(e, now, clock) == clock <==> e == now
  {
  }

  lemma NothingDueLater(h: History, tick: nat)
    requires InRange(h) && tick >= h.clock + HALF
    ensures DueAt(h.added, tick) == []
  {
    if DueAt(h.added, tick) != [] {
      DueAtSome(h.added, tick);
    }
  }

  /** One tick of the clock keeps the agreement; the new tick is yet to be dispatched. */
  lemma TickKeeps(v: Slots, now: Word, h: History)
    requires Agrees(v, now, h, h.clock)
    ensures Agrees(Cascaded(v, Next(now)), Next(now), Ticked(h), h.clock)
  {
    var w := Cascaded(v, Next(now));
    var h' := h.(clock := h.clock + 1);
    CascadePlaced(v, now, h);
    hide Cascaded, AgreesOn, Complete, Placed;
    forall e: Word
      ensures AgreesOn(w, e, Next(now), h', h.clock)
    {
      CascadePending(v, now, h, e);
      TickAgreesOn(v, w, now, h, e);
    }
    NextTick(now, now, h.clock);
  }

  lemma TickAgreesOn(v: Slots, w: Slots, now: Word, h: History, e: Word)
    requires Complete(v) && Complete(w) && now == h.clock % WORD && InRange(h)
    requires AgreesOn(v, e, now, h, h.clock) && Pending(w, e, Next(now)) == Pending(v, e, now)
    ensures AgreesOn(w, e, Next(now), Ticked(h), h.clock)
  {
    NextTick(e, now, h.clock);
    if e == now {
      NothingDueLater(h, h.clock + WORD);
    }
  }

  /** The slot of the current tick holds exactly the timers due now, in order. */
  lemma NearIsDue(v: Slots, now: Word, h: History, done: nat)
    requires Agrees(v, now, h, done) && done <= h.clock <= done + 1
    ensures Near(now % TIME_NEAR) in v
    ensures Stamp(Events(v[Near(now % TIME_NEAR)]), h.clock) == DueNow(h, done)
  {
    var p := Near(now % TIME_NEAR);
    NearIsNow(now, now);
    assert Full(v, p);
    forall n: Node | n in v[p] ensures n.expire == now { NearIsNow(n.expire, now); }
    ExpiringAll(v[p], now);
    assert AgreesOn(v, now, now, h, done);
  }

  /** Without that slot, the wheel holds what is due later. */
  lemma ClearedAgreesOn(v: Slots, now: Word, h: History, done: nat, e: Word)
    requires Agrees(v, now, h, done) && done <= h.clock <= done + 1
    requires Complete(v[Near(now % TIME_NEAR) := []])
    ensures AgreesOn(v[Near(now % TIME_NEAR) := []], e, now, h, h.clock)
  {
    assert AgreesOn(v, e, now, h, done);
    assert Full(v, PlaceOf(e, now));
    NearIsNow(e, now);
  }

  lemma DispatchIsDue(v: Slots, now: Word, h: History, done: nat)
    requires Agrees(v, now, h, done) && done <= h.clock <= done + 1
    ensures Near(now % TIME_NEAR) in v
    ensures Stamp(Events(v[Near(now % TIME_NEAR)]), h.clock) == DueNow(h, done)
    ensures Agrees(v[Near(now % TIME_NEAR) := []], now, Fired(h, DueNow(h, done)), h.clock)
  {
    NearIsDue(v, now, h, done);
    var w := v[Near(now % TIME_NEAR) := []];
    var h' := Fired(h, DueNow(h, done));
    forall q ensures Full(w, q) { assert Full(v, q); }
    forall e: Word
      ensures AgreesOn(w, e, now, h', h.clock)
    {
      ClearedAgreesOn(v, now, h, done, e);
    }
    assert h'.fired == DueBy(h.added, h.clock);
  }

  // ------------------------------------------------------------- the timer

  class Timer {
    var near: array<seq<Node>>
    var t: array<seq<Node>>   // four levels of TIME_LEVEL slots, level by level
    var time: Word
    ghost var slots: Slots
    ghost var history: History

    ghost predicate Shape()
      reads `near, `t
    {
      near.Length == TIME_NEAR && t.Length == 4 * TIME_LEVEL && near != t
    }

    function List(p: Place): seq<Node>
      requires Shape() && ValidPlace(p)
      reads `near, `t, near, t
    {
      match p
      case Near(i) => near[i]
      case Level(i, j) => t[i * TIME_LEVEL + j]
    }

    /** `slots` is what the two arrays hold. */
    ghost predicate Linked()
      reads `near, `t, `slots, near, t
    {
      && Shape()
      && Complete(slots)
      && forall p :: ValidPlace(p) ==> p in slots && slots[p] == List(p)
    }

    /** Between two updates: all timers due by now have been dispatched. */
    ghost predicate Valid()
      reads this, near, t
    {
      Linked() && Agrees(slots, time, history, history.clock)
    }

    constructor ()
      ensures Valid() && fresh(near) && fresh(t)
      ensures time == 0 && history == History(0, [], [])
    {
      near := new seq<Node>[TIME_NEAR](_ => []);
      t := new seq<Node>[4 * TIME_LEVEL](_ => []);
      time, history := 0, History(0, [], []);
      slots := imap p | ValidPlace(p) :: [];
      new;
      forall p ensures Full(slots, p) {}
      forall e: Word ensures AgreesOn(slots, e, 0, history, 0) {}
    }

    /** Appends a node to one slot. */
    method Link(p: Place, node: Node)
      requires Linked() && ValidPlace(p) && p == PlaceOf(node.expire, time)
      modifies near, t, `slots
      ensures Linked() && slots == AddTo(old(slots), node, time)
    {
      match p {
        case Near(i) => near[i] := near[i] + [node];
        case Level(i, j) => t[i * TIME_LEVEL + j] := t[i * TIME_LEVEL + j] + [node];
      }
      AddPending(slots, node, time, node.expire);
      hide Pending, PlaceOf;
      slots := AddTo(slots, node, time);
    }

    /** Appends a node to the slot that its expiry and the clock determine. */
    method AddNode(node: Node)
      requires Linked()
      modifies near, t, `slots
      ensures Linked() && slots == AddTo(old(slots), node, time)
    {
      var expire := node.expire;
      SameBlock(expire, time, 0x100);
      if OrMask(expire, TIME_NEAR) == OrMask(time, TIME_NEAR) {
        Link(Near(expire % TIME_NEAR), node);
      } else {
        var i, mask := 0, TIME_NEAR * TIME_LEVEL;
        SameBlock(expire, time, 0x4000);
        while i < 3 && OrMask(expire, mask) != OrMask(time, mask)
          invariant Linked() && slots == old(slots)
          invariant i <= 3 && mask == Span(i) * TIME_LEVEL
          invariant OrMask(expire, mask) == OrMask(time, mask) <==> expire / mask == time / mask
          invariant i > 0 ==> expire / 0x4000 != time / 0x4000
          invariant i > 1 ==> expire / 0x10_0000 != time / 0x10_0000
          invariant i > 2 ==> expire / 0x400_0000 != time / 0x400_0000
        {
          mask := mask * TIME_LEVEL;
          i := i + 1;
          SameBlock(expire, time, mask);
        }
        Link(Level(i, expire / Span(i) % TIME_LEVEL), node);
      }
    }

    /** Starts a timer.  Between two updates, and also while an update dispatches. */
    method TimerAdd(r: Request)
      requires Valid() && r.Ok()
      modifies near, t, `slots, `history
      ensures Valid()
      ensures history == Requested(old(history), r)
    {
      AddKeeps(slots, time, history, r);
      AddNode(Node(ExpireOf(time, r.delay), r.event));
      history := Requested(history, r);
    }

    /** Empties a slot and returns its list. */
    method LinkClear(p: Place) returns (list: seq<Node>)
      requires Linked() && ValidPlace(p)
      modifies near, t, `slots
      ensures Linked() && p in old(slots) && slots == old(slots)[p := []] && list == old(slots)[p]
    {
      list := List(p);
      match p {
        case Near(i) => near[i] := [];
        case Level(i, j) => t[i * TIME_LEVEL + j] := [];
      }
      ghost var v := slots;
      slots := v[p := []];
      forall q ensures Full(slots, q) { assert Full(v, q); }
    }

    /** Empties a slot of a level and adds its nodes again, in order. */
    method MoveList(level: nat, idx: nat)
      requires Linked() && ValidPlace(Level(level, idx))
      modifies near, t, `slots
      ensures Linked()
      ensures Level(level, idx) in old(slots)
      ensures slots == Moved(old(slots), Level(level, idx), old(slots)[Level(level, idx)], time)
    {
      ghost var v := slots;
      ghost var from := Level(level, idx);
      var current := LinkClear(Level(level, idx));
      EmptiedView(v, slots, from, time);
      var k := 0;
      while k < |current|
        invariant k <= |current|
        invariant Linked() && slots == Moved(v, from, current[..k], time)
      {
        PrefixStep(current, k);
        MovedStep(v, from, current[..k], current[k], time);
        AddNode(current[k]);
        k := k + 1;
      }
      assert current[..k] == current;
    }

    /** Advances the clock by one tick and cascades. */
    method TimerShift()
      requires Valid()
      modifies near, t, `time, `slots, `history
      ensures Linked() && history == Ticked(old(history))
      ensures Agrees(slots, time, history, history.clock - 1)
    {
      TickKeeps(slots, time, history);
      time := Next(time);
      history := Ticked(history);
      Cascade();
    }

    method Cascade()
      requires Linked()
      modifies near, t, `slots
      ensures Linked() && slots == Cascaded(old(slots), time)
    {
      var ct := time;
      if ct == 0 {
        MoveList(3, 0);
      } else {
        var mask, tm, i := TIME_NEAR, ct / TIME_NEAR, 0;
        while ct % mask == 0
          invariant i < 4 && mask == Span(i) && tm == ct / mask && (i > 0 ==> ct % mask == 0)
          invariant Linked() && slots == old(slots)
          invariant i > 0 ==> ct % 0x100 == 0 && ct / 0x100 % TIME_LEVEL == 0
          invariant i > 1 ==> ct / 0x4000 % TIME_LEVEL == 0
          invariant i > 2 ==> ct / 0x10_0000 % TIME_LEVEL == 0
          decreases 4 - i
        {
          var idx := tm % TIME_LEVEL;
          if i == 3 {
            TopSpan(ct);
          }
          if idx != 0 {
            assert CascadeAt(ct) == Empties(i, idx);
            MoveList(i, idx);
            return;
          }
          NextSpan(ct, i);
          mask := mask * TIME_LEVEL;
          tm := tm / TIME_LEVEL;
          i := i + 1;
        }
        assert CascadeAt(ct) == NoCascade;
      }
    }

    /** Starts the timers that other threads request while the lock is released. */
    method Window(requests: seq<Request>)
      requires Valid() && forall r <- requests :: r.Ok()
      modifies near, t, `slots, `history
      ensures Valid() && history == RequestedAll(old(history), requests)
    {
      for k := 0 to |requests|
        invariant Valid() && history == RequestedAll(old(history), requests[..k])
      {
        TimerAdd(requests[k]);
        assert requests[..k + 1][..k] == requests[..k];
      }
      assert requests[..|requests|] == requests;
    }

    /** Takes the list of the current tick and sends it.  The lock is released
        while it sends; other threads may start timers (`window`) then. */
    method DispatchList(window: seq<Request>, ghost done: nat) returns (sent: seq<Event>)
      requires Linked() && Agrees(slots, time, history, done) && done <= history.clock <= done + 1
      requires near[time % TIME_NEAR] != [] && forall r <- window :: r.Ok()
      modifies near, t, `slots, `history
      ensures Valid() && near[time % TIME_NEAR] == [] && sent != []
      ensures Stamp(sent, history.clock) == DueNow(old(history), done)
      ensures history == RequestedAll(Fired(old(history), DueNow(old(history), done)), window)
    {
      DispatchIsDue(slots, time, history, done);
      var current := LinkClear(Near(time % TIME_NEAR));
      sent := Events(current);
      history := Fired(history, Stamp(sent, history.clock));
      Window(window);
      DispatchIsDue(slots, time, history, history.clock);
    }

    /** Dispatches the slot of the current tick until it stays empty. */
    method TimerExecute(window: seq<Request>, ghost done: nat) returns (sent: seq<Event>)
      requires Linked() && Agrees(slots, time, history, done) && done <= history.clock <= done + 1
      requires forall r <- window :: r.Ok()
      modifies near, t, `slots, `history
      ensures Valid()
      ensures Stamp(sent, history.clock) == DueNow(old(history), done)
      ensures history == Dispatched(old(history), DueNow(old(history), done), window)
    {
      var idx := time % TIME_NEAR;
      sent := [];
      ghost var d := done;
      DispatchIsDue(slots, time, history, done);
      if near[idx] == [] {
        assert slots[Near(idx) := []] == slots;
        assert Fired(history, []) == history;
        d := history.clock;
      }
      while near[idx] != []
        invariant Linked() && Agrees(slots, time, history, d) && history.clock == old(history.clock)
        invariant if near[idx] != [] then d == done && sent == [] && history == old(history)
                  else && d == history.clock
                       && Stamp(sent, history.clock) == DueNow(old(history), done)
                       && history == Dispatched(old(history), DueNow(old(history), done), window)
        decreases |near[idx]|
      {
        var current := DispatchList(window, d);
        sent := sent + current;
        d := history.clock;
        assert sent == current;
      }
    }

    /** One update: dispatch what is left of this tick, advance, dispatch again. */
    method TimerUpdate(first: seq<Request>, second: seq<Request>)
      requires Valid()
      requires (forall r <- first :: r.Ok()) && (forall r <- second :: r.Ok())
      modifies near, t, `time, `slots, `history
      ensures Valid()
      ensures history == Updated(old(history), second)
    {
      hide Linked, Agrees;
      var sent := TimerExecute(first, history.clock);
      assert DueNow(old(history), history.clock) == [];
      TimerShift();
      sent := TimerExecute(second, history.clock - 1);
    }

    method Perform(op: Op)
      requires Valid() && op.Ok()
      modifies near, t, `time, `slots, `history
      ensures Valid()
      ensures history == After(old(history), op)
    {
      match op {
        case Start(r) => TimerAdd(r);
        case Update(first, second) => TimerUpdate(first, second);
      }
    }
  }

  /** What is due at the current tick, unless it is done. */
  function DueNow(h: History, done: nat): seq<Timeout> {
    if done < h.clock then DueAt(h.added, h.clock) else []
  }

  /** A batch sent, and the requests that arrived while it was being sent. */
  function Dispatched(h: History, batch: seq<Timeout>, window: seq<Request>): History {
    if batch == [] then h else RequestedAll(Fired(h, batch), window)
  }

  function Updated(h: History, window: seq<Request>): History {
    var h' := Ticked(h);
    Dispatched(h', DueAt(h'.added, h'.clock), window)
  }

  // ------------------------------------------------------------------- runs

  /** What may happen to a timer: a request between two updates, or an update
      (with the requests that arrive while it dispatches). */
  datatype Op = Start(r: Request) | Update(first: seq<Request>, second: seq<Request>) {
    predicate Ok() {
      match this
      case Start(r) => r.Ok()
      case Update(first, second) => (forall r <- first :: r.Ok()) && (forall r <- second :: r.Ok())
    }
  }

  function After(h: History, op: Op): History {
    match op
    case Start(r) => Requested(h, r)
    case Update(_, second) => Updated(h, second)
  }

  function RunHistory(ops: seq<Op>): History {
    if ops == [] then History(0, [], []) else After(RunHistory(ops[..|ops| - 1]), ops[|ops| - 1])
  }

  /** The wheel, driven by any sequence of operations, produces the history of that run. */
  method Drive(ops: seq<Op>) returns (timer: Timer)
    requires forall op <- ops :: op.Ok()
    ensures timer.Valid() && timer.history == RunHistory(ops)
  {
    timer := new Timer();
    for k := 0 to |ops|
      invariant fresh(timer) && fresh(timer.near) && fresh(timer.t)
      invariant timer.Valid() && timer.history == RunHistory(ops[..k])
    {
      assert ops[..k + 1][..k] == ops[..k] && ops[k] in ops;
      timer.Perform(ops[k]);
    }
    assert ops[..|ops|] == ops;
  }

  /** Every timer lies in the future when it is started. */
  ghost predicate Exact(h: History) {
    h.fired == DueBy(h.added, h.clock) && forall a <- h.added :: a.tick > 0
  }

  lemma RequestedExact(h: History, r: Request)
    requires Exact(h) && r.Ok()
    ensures Exact(Requested(h, r))
  {
    DueByAppend(h.added, Timeout(h.clock + r.delay, r.event), h.clock);
  }

  lemma {:induction false} RequestedAllExact(h: History, rs: seq<Request>)
    requires Exact(h) && forall r <- rs :: r.Ok()
    ensures Exact(RequestedAll(h, rs))
  {
    if rs != [] {
      RequestedAllExact(h, rs[..|rs| - 1]);
      RequestedExact(RequestedAll(h, rs[..|rs| - 1]), rs[|rs| - 1]);
    }
  }

  lemma {:induction false} RunExact(ops: seq<Op>)
    requires forall op <- ops :: op.Ok()
    ensures Exact(RunHistory(ops))
  {
    if ops != [] {
      var h, op := RunHistory(ops[..|ops| - 1]), ops[|ops| - 1];
      RunExact(ops[..|ops| - 1]);
      assert op in ops && op.Ok();
      match op
      case Start(r) => RequestedExact(h, r);
      case Update(first, second) =>
        var batch := DueAt(h.added, h.clock + 1);
        assert Ticked(h).fired + [] == Ticked(h).fired;
        assert Exact(Fired(Ticked(h), batch));
        RequestedAllExact(Fired(Ticked(h), batch), second);
    }
  }

  /** Over any run each timer is dispatched exactly as often as it was started once
      its tick has come, never before, and only stamped with its own tick; timers of
      one tick are dispatched in the order in which they were started. */
  lemma RunDispatchesExactly(ops: seq<Op>, t: Timeout, k: nat)
    requires (forall op <- ops :: op.Ok()) && t.tick > 0 && k > 0
    ensures var h := RunHistory(ops);
            && Times(h.fired, t) == (if t.tick <= h.clock then Times(h.added, t) else 0)
            && DueAt(h.fired, k) == (if k <= h.clock then DueAt(h.added, k) else [])
            && (forall i, j :: 0 <= i < j < |h.fired| ==> h.fired[i].tick <= h.fired[j].tick)
  {
    var h := RunHistory(ops);
    RunExact(ops);
    DueByCount(h.added, h.clock, t);
    DueByTick(h.added, h.clock, k);
    DueByOrdered(h.added, h.clock);
  }
}
