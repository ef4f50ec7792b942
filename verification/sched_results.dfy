/** What the scheduler promises, over every run. */
module SchedResults {
  import opened Basics
  import opened SchedSystem
  import opened SchedInvariant
  import opened SchedSafety

  /** The states that runs reach. */
  ghost predicate Reachable(s: System) { exists steps :: RunAll(steps) == Next(s) }

  lemma {:induction false} ReachableInv(s: System)
    requires Reachable(s)
    ensures Inv(s)
  {
    var steps :| RunAll(steps) == Next(s);
    RunSafe(steps);
  }

  lemma {:induction false} ViewHolds(s: System, h: Handle)
    requires Inv(s)
    ensures ViewOk(ViewOf(s, h))
  {
    assert Opened(0) && Shown(0);
  }

  /** A queue that is marked, by `in_global` or by `release`, is linked in the global
      list once or is in one activity's hand; any other queue is neither. */
  lemma {:induction false} OneOwner(s: System, h: Handle)
    requires Reachable(s)
    ensures Times(s.global, h) + Sum(s.activities, Token, h)
            == if h in s.queues && (s.queues[h].inGlobal || s.queues[h].release) then 1 else 0
  {
    ReachableInv(s);
    ViewHolds(s, h);
  }

  /** Does the activity work on this queue: look at its messages or run its callback? */
  predicate WorksOn(x: Activity, q: Handle) {
    match x
    case Lookup(p) => p == q
    case Run(p, _, _) => p == q
    case Got(p, _, _, _) => p == q
    case Calling(p, _, _) => p == q
    case Swap(p, next) => p == q || next == q
    case Dropping(p, _) => p == q
    case Freeing(p, _) => p == q
    case _ => false
  }

  /** No two workers are on one queue, and nobody else links it meanwhile. */
  lemma {:induction false} OneWorker(s: System, a: nat, b: nat, q: Handle)
    requires Reachable(s) && a < |s.activities| && b < |s.activities|
    requires WorksOn(s.activities[a], q) && WorksOn(s.activities[b], q)
    ensures a == b && q !in s.global && q in s.queues
  {
    ReachableInv(s);
    ViewHolds(s, q);
    SumUpdate(s.activities, a, Done, Token, q);
    TimesIn(s.global, q);
    if a != b { SumPair(s.activities, a, b, Token, q); }
  }

  /** A callback runs only in a service that exists and has been initialised. */
  lemma {:induction false} CallbackAfterInit(s: System, a: nat, q: Handle, i: nat, n: nat)
    requires Reachable(s) && a < |s.activities| && s.activities[a] == Calling(q, i, n)
    ensures q in s.contexts && s.contexts[q].init && s.contexts[q].ref > 0
  {
    ReachableInv(s);
    ViewHolds(s, q);
    SumUpdate(s.activities, a, Done, Reference, q);
    assert Opened(0) && Stands(s.activities[a], ViewOf(s, SubjectOf(s.activities[a])));
  }

  /** A queue with messages has an owner. */
  lemma {:induction false} WaitingIsOwned(s: System, h: Handle)
    requires Reachable(s) && h in s.queues && s.queues[h].messages != []
    ensures h in s.global || exists a :: 0 <= a < |s.activities| && Has(s.activities[a], Token, h) > 0
  {
    ReachableInv(s);
    ViewHolds(s, h);
    TimesIn(s.global, h);
    if h !in s.global { SomeoneHas(s.activities, Token, h); }
  }

  lemma {:induction false} SomeoneHas(xs: seq<Activity>, k: Kind, h: Handle)
    requires Sum(xs, k, h) > 0
    ensures exists a :: 0 <= a < |xs| && Has(xs[a], k, h) > 0
  {
    var m := |xs| - 1;
    if Has(xs[m], k, h) == 0 {
      SomeoneHas(xs[..m], k, h);
      var a :| 0 <= a < m && Has(xs[..m][a], k, h) > 0;
      assert Has(xs[a], k, h) > 0;
    }
  }

  /** The message that a worker has taken from a queue and not yet handed over. */
  predicate InFlight(s: System, h: Handle, flying: seq<Message>) {
    if flying == [] then forall a | 0 <= a < |s.activities| :: !(s.activities[a].Got? && s.activities[a].q == h)
    else
      exists a | 0 <= a < |s.activities| ::
        s.activities[a].Got? && s.activities[a].q == h && flying == [s.activities[a].m]
  }

  function WaitingIn(s: System, h: Handle): seq<Message> { if h in s.queues then s.queues[h].messages else [] }

  lemma {:induction false} FindFlight(s: System, h: Handle) returns (flying: seq<Message>)
    requires Inv(s) && ViewOk(ViewOf(s, h))
    ensures InFlight(s, h, flying) && |flying| <= 1
    ensures Accounts(LogOf(s, h).accepted, LogOf(s, h).fates, flying, WaitingIn(s, h))
  {
    if Sum(s.activities, Flight, h) == 0 {
      flying := [];
      forall a | 0 <= a < |s.activities| ensures !(s.activities[a].Got? && s.activities[a].q == h) {
        SumUpdate(s.activities, a, Done, Flight, h);
      }
    } else {
      SomeoneHas(s.activities, Flight, h);
      var a :| 0 <= a < |s.activities| && Has(s.activities[a], Flight, h) > 0;
      flying := [s.activities[a].m];
      assert Opened(0) && Stands(s.activities[a], ViewOf(s, SubjectOf(s.activities[a])));
    }
  }

  /** Every accepted message is, in the order of acceptance, handed over once, or
      dropped once, or on its way, or waiting; what becomes of the error that drop_message
      sends is the subject of `SchedReplies`.
      Messages are dropped after the service is gone, and after all that were handed over. */
  lemma {:induction false} MessagesAccounted(s: System, h: Handle) returns (flying: seq<Message>)
    requires Reachable(s)
    ensures InFlight(s, h, flying) && |flying| <= 1
    ensures LogOf(s, h).accepted == MessagesOf(LogOf(s, h).fates) + flying + WaitingIn(s, h)
    ensures var fates := LogOf(s, h).fates;
            forall i, j :: 0 <= i < j < |fates| && fates[i].Dropped? ==> fates[j].Dropped?
    ensures forall f <- LogOf(s, h).fates :: f.Dropped? ==> h !in s.contexts && h !in s.registered
  {
    ReachableInv(s);
    ViewHolds(s, h);
    flying := FindFlight(s, h);
    ReadLog(LogOf(s, h), flying, WaitingIn(s, h));
    if h in s.contexts { AllHandledIn(LogOf(s, h).fates); }
  }

  lemma {:induction false} ReadLog(l: Log, flying: seq<Message>, waiting: seq<Message>)
    requires Accounts(l.accepted, l.fates, flying, waiting) && Orderly(l.fates)
    ensures l.accepted == MessagesOf(l.fates) + flying + waiting
    ensures forall i, j :: 0 <= i < j < |l.fates| && l.fates[i].Dropped? ==> l.fates[j].Dropped?
  {
    assert Shown(0);
    DropsAtEnd(l.fates);
    assert MessagesOf(l.fates) + (flying + waiting) == MessagesOf(l.fates) + flying + waiting;
  }

  lemma {:induction false} AllHandledIn(fates: seq<Fate>)
    requires NoDrops(fates)
    ensures forall f <- fates :: !f.Dropped?
  {
    assert Shown(0);
    AllHandled(fates);
  }

  lemma {:induction false} AllHandled(fates: seq<Fate>)
    requires NoDropsIn(fates)
    ensures forall f <- fates :: !f.Dropped?
  {
    if fates != [] { AllHandled(fates[..|fates| - 1]); }
  }

  lemma {:induction false} DropsAtEnd(fates: seq<Fate>)
    requires DropsLastIn(fates)
    ensures forall i, j :: 0 <= i < j < |fates| && fates[i].Dropped? ==> fates[j].Dropped?
  {
    if fates != [] {
      var m := |fates| - 1;
      DropsAtEnd(fates[..m]);
      if !fates[m].Dropped? { AllHandled(fates[..m]); }
      forall i, j | 0 <= i < j < |fates| && fates[i].Dropped? ensures fates[j].Dropped? {
        assert fates[i] == fates[..m][i];
        if j < m { assert fates[j] == fates[..m][j]; }
      }
    }
  }

  /** A service and its queue are freed at most once, the service first; until then they exist. */
  lemma {:induction false} FreedOnce(s: System, h: Handle)
    requires Reachable(s) && 0 < h < s.next
    ensures LogOf(s, h).contextFrees == (if h in s.contexts then 0 else 1)
    ensures LogOf(s, h).queueFrees == (if h in s.queues then 0 else 1)
    ensures h in s.contexts ==> h in s.queues
  {
    ReachableInv(s);
    ViewHolds(s, h);
  }

  /** Nobody is in the middle of something, and no queue waits for a worker. */
  predicate Quiet(s: System) {
    s.global == [] && forall a :: 0 <= a < |s.activities| ==> s.activities[a] == Idle || s.activities[a] == Done
  }

  /** When everything has come to rest nothing is lost: a registered service has no
      messages left, a retired one is freed with its queue, and every accepted message
      has met its fate. */
  lemma {:induction false} AtRest(s: System, h: Handle)
    requires Reachable(s) && Quiet(s) && 0 < h < s.next
    ensures h in s.registered ==> h in s.queues && s.queues[h] == Queue(false, false, [])
    ensures h !in s.registered ==> LogOf(s, h).contextFrees == 1 && LogOf(s, h).queueFrees == 1
    ensures LogOf(s, h).accepted == MessagesOf(LogOf(s, h).fates)
  {
    ReachableInv(s);
    ViewHolds(s, h);
    NobodyHas(s.activities, Token, h);
    NobodyHas(s.activities, Reference, h);
    NobodyHas(s.activities, Deletion, h);
    NobodyHas(s.activities, Flight, h);
    assert Shown(0);
    assert [] + WaitingIn(s, h) == WaitingIn(s, h)
           && MessagesOf(LogOf(s, h).fates) + [] == MessagesOf(LogOf(s, h).fates);
  }

  lemma {:induction false} NobodyHas(xs: seq<Activity>, k: Kind, h: Handle)
    requires forall a :: 0 <= a < |xs| ==> xs[a] == Idle || xs[a] == Done
    ensures Sum(xs, k, h) == 0
  {
    if xs != [] {
      NobodyHas(xs[..|xs| - 1], k, h);
    }
  }

  lemma {:induction false} OneMore(s: System, step: Label, t: System)
    requires Reachable(s) && Exec(s, step) == Next(t)
    ensures Reachable(t)
  {
    var steps :| RunAll(steps) == Next(s);
    assert (steps + [step])[..|steps|] == steps;
    assert RunAll(steps + [step]) == Next(t);
  }

  /** What can go wrong, exactly: a creator sets `init` in a service, or reads its handle for
      the announcement, or the caller reads the handle, when the service was freed since the
      creator gave up its reference. */
  lemma {:induction false} FaultExactly(s: System, a: nat, c: Choice)
    requires Reachable(s) && a < |s.activities|
    ensures Go(s, a, c).Fault?
            <==> (s.activities[a].SettingInit? || s.activities[a].Announcing? || s.activities[a].Answering?)
                 && s.activities[a].h !in s.contexts
  {
    ReachableInv(s);
    GoKeeps(s, a, c);
  }

  /** Every activity that is not done can make its next step, with these exceptions. */
  lemma {:induction false} NeverStuck(s: System, a: nat, c: Choice)
    requires Reachable(s) && a < |s.activities| && s.activities[a] != Done
    ensures if UsesFreed(s, a) then Go(s, a, c).Fault? else Go(s, a, c).Next? && Reachable(Go(s, a, c).s)
  {
    ReachableInv(s);
    GoKeeps(s, a, c);
    if !UsesFreed(s, a) { OneMore(s, Act(a, c), Go(s, a, c).s); }
  }

  /** A service is there exactly as long as it is registered, in use, or being freed. */
  lemma {:induction false} ThereExactly(s: System, h: Handle)
    requires Reachable(s)
    ensures h in s.contexts
            <==> h in s.registered || Sum(s.activities, Reference, h) > 0 || Sum(s.activities, Deletion, h) > 0
  {
    ReachableInv(s);
    ViewHolds(s, h);
  }

  /** A creator sets `init` after it gave up its reference.  The service is still there
      exactly as long as it is registered, in use, or being freed by somebody else; no
      worker can be among those who use it. */
  lemma {:induction false} SetInitSafe(s: System, a: nat, h: Handle)
    requires Reachable(s) && a < |s.activities| && s.activities[a] == SettingInit(h)
    ensures h in s.contexts
            <==> h in s.registered || Sum(s.activities, Reference, h) > 0 || Sum(s.activities, Deletion, h) > 0
    ensures h !in s.global && Sum(s.activities, WorkToken, h) == 0
  {
    ThereExactly(s, h);
    OneOwner(s, h);
    TimesIn(s.global, h);
    SumUpdate(s.activities, a, Done, Token, h);
    SumUpdate(s.activities, a, Done, WorkToken, h);
    SumLeq(s.activities[a := Done], h);
  }

  /** The handle is read for the announcement, and for the caller, after the queue was
      linked: by then a worker may have been the last to use the service. */
  lemma {:induction false} ReadSafe(s: System, a: nat, h: Handle)
    requires Reachable(s) && a < |s.activities|
    requires s.activities[a] == Announcing(h) || s.activities[a] == Answering(h)
    ensures h in s.contexts
            <==> h in s.registered || Sum(s.activities, Reference, h) > 0 || Sum(s.activities, Deletion, h) > 0
  {
    ThereExactly(s, h);
  }

  /** A service whose creator is about to set `init`. */
  lemma {:induction false} AlmostCreated() returns (s: System)
    ensures Reachable(s) && s.activities == [SettingInit(1)] && s.registered == {1} && s.next == 2 && s.global == []
    ensures s.contexts == map[1 := Context(1, false, true)] && s.queues == map[1 := Queue(true, false, [])]
  {
    var c := Choice(true, true, 0, true, true);
    var s2 := JustCreated();
    s := At(WithContext(s2, 1, Context(1, false, true)), 0, SettingInit(1));
    OneMore(s2, Act(0, c), s);
  }

  lemma {:induction false} StartReachable()
    ensures Reachable(START)
  {
    var none: seq<Label> := [];
    assert RunAll(none) == Next(START);
  }

  lemma {:induction false} JustCreated() returns (s: System)
    ensures Reachable(s) && s == System(2, {1}, map[1 := Context(2, false, false)], map[1 := Queue(true, false, [])],
                                        [], [Initing(1)], map[1 := Log([], [], 0, 0)], [])
  {
    hide Reachable;
    StartReachable();
    var s1 := START.(activities := [Creating]);
    OneMore(START, Begin(Creating), s1);
    s := GoCreate(s1, 0);
    OneMore(s1, Act(0, Choice(true, true, 0, true, true)), s);
  }

  /** One activity makes one step. */
  lemma {:induction false} Advance(s: System, b: nat) returns (t: System)
    requires Reachable(s) && b < |s.activities| && s.activities[b] != Done && !Unreferenced(s.activities[b])
    ensures Reachable(t) && Go(s, b, QUIETLY) == Next(t)
  {
    NeverStuck(s, b, QUIETLY);
    t := Go(s, b, QUIETLY).s;
  }

  const QUIETLY := Choice(true, true, -1, false, false)

  /** How many more steps an activity keeps the reference that it has, at most. */
  function StepsLeft(x: Activity): nat {
    match x
    case Run(_, i, n) => if i < n then 3 * (n - i) + 3 else 3
    case Got(_, i, n, _) => if i + 1 < n then 3 * (n - i - 1) + 5 else 5
    case Calling(_, i, n) => if i + 1 < n then 3 * (n - i - 1) + 4 else 4
    case Swap(_, _) => 2
    case Grabbed(_, _) => 2
    case _ => 1
  }

  ghost predicate Nearer(s: System, b: nat, h: Handle)
    requires b < |s.activities|
  {
    && Go(s, b, QUIETLY).Next?
    && var t := Go(s, b, QUIETLY).s;
       && |t.activities| == |s.activities| && t.activities == s.activities[b := t.activities[b]]
       && (Refers(t.activities[b]) == h ==> StepsLeft(t.activities[b]) < StepsLeft(s.activities[b]))
  }

  lemma {:induction false} WorkerNearer(s: System, b: nat, h: Handle)
    requires b < |s.activities| && Refers(s.activities[b]) == h && Go(s, b, QUIETLY).Next?
    requires s.activities[b].Run? || s.activities[b].Got? || s.activities[b].Calling?
    ensures Nearer(s, b, h)
  {
    hide Half;
  }

  lemma {:induction false} ReleaseNearer(s: System, b: nat, h: Handle)
    requires b < |s.activities| && Refers(s.activities[b]) == h && Go(s, b, QUIETLY).Next?
    requires !s.activities[b].Run? && !s.activities[b].Got? && !s.activities[b].Calling?
    ensures Nearer(s, b, h)
  {
  }

  lemma {:induction false} NearerRelease(s: System, b: nat, h: Handle)
    requires b < |s.activities| && Refers(s.activities[b]) == h && Go(s, b, QUIETLY).Next?
    ensures Nearer(s, b, h)
  {
    hide Go, Nearer;
    if s.activities[b].Run? || s.activities[b].Got? || s.activities[b].Calling? {
      WorkerNearer(s, b, h);
    } else {
      ReleaseNearer(s, b, h);
    }
  }

  /** Whoever has a reference to a service gives it up in the end. */
  lemma {:induction false} GivesUp(s: System, b: nat, h: Handle) returns (t: System)
    requires Reachable(s) && b < |s.activities| && Refers(s.activities[b]) == h
    ensures Reachable(t) && |t.activities| == |s.activities| && t.activities == s.activities[b := t.activities[b]]
    ensures Refers(t.activities[b]) != h
    decreases StepsLeft(s.activities[b])
  {
    hide Reachable, Go, StepsLeft;
    t := Advance(s, b);
    NearerRelease(s, b, h);
    if Refers(t.activities[b]) == h { t := GivesUp(t, b, h); }
  }

  /** So do all, while activity `a` waits. */
  lemma {:induction false} AllGiveUp(s: System, a: nat, h: Handle) returns (t: System)
    requires Reachable(s) && a < |s.activities| && Unreferenced(s.activities[a])
    ensures Reachable(t) && |t.activities| == |s.activities| && t.activities[a] == s.activities[a]
    ensures Sum(t.activities, Reference, h) == 0
    decreases Sum(s.activities, Reference, h)
  {
    hide Reachable, Sum;
    t := s;
    if Sum(s.activities, Reference, h) > 0 {
      SomeoneHas(s.activities, Reference, h);
      var b: nat :| b < |s.activities| && Has(s.activities[b], Reference, h) > 0;
      t := GivesUp(s, b, h);
      SumUpdate(s.activities, b, t.activities[b], Reference, h);
      t := AllGiveUp(t, a, h);
    }
  }

  /** Somebody retires a service that nobody uses: its last reference is given up. */
  lemma {:induction false} LastReference(s: System, h: Handle) returns (t: System)
    requires Reachable(s) && h in s.registered && Sum(s.activities, Reference, h) == 0
    ensures Reachable(t) && t.activities == s.activities + [Deleting(h, ToDone)]
  {
    hide Sum, Reachable;
    var b := |s.activities|;
    var s1 := s.(activities := s.activities + [Retiring(h, ToDone)]);
    OneMore(s, Begin(Retiring(h, ToDone)), s1);
    var s2 := Advance(s1, b);
    LastCount(s, h);
    t := Advance(s2, b);
  }

  lemma {:induction false} LastCount(s: System, h: Handle)
    requires Reachable(s) && h in s.registered && Sum(s.activities, Reference, h) == 0
    ensures h in s.contexts && s.contexts[h].ref == 1
  {
    ReachableInv(s);
    ViewHolds(s, h);
  }

  lemma {:induction false} FindDeletion(xs: seq<Activity>, h: Handle) returns (b: nat)
    requires Sum(xs, Deletion, h) > 0
    ensures b < |xs| && xs[b].Deleting? && xs[b].h == h
  {
    SomeoneHas(xs, Deletion, h);
    b :| b < |xs| && Has(xs[b], Deletion, h) > 0;
  }

  /** A service that nobody uses can be freed at once. */
  lemma {:induction false} CanBeFreed(s: System, a: nat, h: Handle) returns (t: System)
    requires Reachable(s) && Sum(s.activities, Reference, h) == 0
    requires a < |s.activities| && Unreferenced(s.activities[a])
    ensures Reachable(t) && |t.activities| >= |s.activities| && t.activities[a] == s.activities[a] && h !in t.contexts
    ensures h in s.registered ==> t.activities == s.activities + [Done]
  {
    hide Sum, Reachable;
    t := s;
    if h in s.registered {
      var s1 := LastReference(s, h);
      t := Advance(s1, |s.activities|);
    } else if h in s.contexts {
      ThereExactly(s, h);
      var b := FindDeletion(s.activities, h);
      t := Advance(s, b);
    }
  }

  /** Nothing protects a service that is used without a reference: whenever a creator, or
      its caller, is about to use it, whatever others are doing, it can be freed before. */
  lemma {:induction false} FaultFollows(s: System, a: nat) returns (t: System)
    requires Reachable(s) && a < |s.activities| && Unreferenced(s.activities[a])
    ensures Reachable(t) && a < |t.activities| && t.activities[a] == s.activities[a] && UsesFreed(t, a)
    ensures forall c :: Go(t, a, c).Fault?
  {
    hide Sum, Reachable;
    var h := s.activities[a].h;
    t := AllGiveUp(s, a, h);
    t := CanBeFreed(t, a, h);
  }

  /** The service may be gone: it retires, and is freed, before its creator sets `init`. */
  lemma {:induction false} SetInitTooLate() returns (s: System)
    ensures Reachable(s) && |s.activities| == 2 && s.activities[0] == SettingInit(1) && 1 !in s.contexts
    ensures forall c :: Go(s, 0, c) == Fault
  {
    var s3 := AlmostCreated();
    s := CanBeFreed(s3, 0, 1);
  }

  /** It sets `init` in time and links the queue, and its handle is about to be read. */
  lemma {:induction false} AlmostRead(x: Activity) returns (s: System)
    requires x == Announcing(1) || x == Answering(1)
    ensures Reachable(s) && s.activities == [x] && s.registered == {1} && s.global == [1]
  {
    hide Reachable;
    var c := Choice(true, true, 0, x.Announcing?, true);
    var s3 := AlmostCreated();
    var s4 := At(WithContext(s3, 1, Context(1, true, true)), 0, Publishing(1, true));
    OneMore(s3, Act(0, c), s4);
    s := At(s4.(global := [1]), 0, x);
    OneMore(s4, Act(0, c), s);
  }

  /** Then the service is freed before that, be it for the announcement or for the caller. */
  lemma {:induction false} ReadTooLate(x: Activity) returns (s: System)
    requires x == Announcing(1) || x == Answering(1)
    ensures Reachable(s) && |s.activities| == 2 && s.activities[0] == x && 1 !in s.contexts
    ensures forall c :: Go(s, 0, c) == Fault
  {
    hide Reachable, RunAll;
    var s5 := AlmostRead(x);
    s := CanBeFreed(s5, 0, 1);
  }
}
