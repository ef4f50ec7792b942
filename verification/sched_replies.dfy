/** Every dropped message is answered: the error reply of drop_message is on its
    way, or was accepted, or found its receiver gone. */
module SchedReplies {
  import opened Basics
  import opened SchedSystem
  import opened SchedInvariant
  import opened SchedSafety
  import opened SchedResults

  /** The reply that a dropped message of service `h` brings its sender. */
  function Reply(h: Handle): Message { Message(h, 0, true) }

  /** How often service `x` is being sent the message `m`. */
  function OnTheWay(s: System, x: Handle, m: Message): nat {
    multiset(s.activities)[Pushing(x, m)] + multiset(s.activities)[Grabbed(x, m)]
  }

  function Arrived(s: System, x: Handle, m: Message): nat { multiset(LogOf(s, x).accepted)[m] }

  function Refused(s: System, x: Handle, m: Message): nat { multiset(s.refused)[Letter(x, m)] }

  /** The messages of service `x` that service `h` dropped. */
  function DroppedOf(s: System, h: Handle, x: Handle): nat { multiset(DroppedSources(LogOf(s, h).fates))[x] }

  ghost predicate Balanced(s: System, h: Handle, x: Handle) {
    DroppedOf(s, h, x) == OnTheWay(s, x, Reply(h)) + Arrived(s, x, Reply(h)) + Refused(s, x, Reply(h))
  }

  /** Services that were not created yet have no history. */
  predicate NoFuture(s: System) { forall h <- s.logs :: h < s.next }

  ghost predicate AllBalanced(s: System) { NoFuture(s) && forall h, x :: Balanced(s, h, x) }

  lemma {:induction false} DroppedMore(fates: seq<Fate>, f: Fate)
    ensures DroppedSources(fates + [f]) == DroppedSources(fates) + if f.Dropped? then [f.m.source] else []
  {
    assert (fates + [f])[..|fates|] == fates;
  }

  /** An activity that carries no reply moves on to one that carries none. */
  lemma {:induction false} MovesOn(xs: seq<Activity>, a: nat, x: Activity, y: Activity)
    requires a < |xs| && xs[a] != y && x != y
    ensures multiset(xs[a := x])[y] == multiset(xs)[y]
  {
  }

  predicate Carries(x: Activity, m: Message) { (x.Pushing? || x.Grabbed?) && x.m == m }

  predicate SameHistory(l: Log, k: Log) {
    k.accepted == l.accepted && DroppedSources(k.fates) == DroppedSources(l.fates)
  }

  /** A step that leaves the histories alone, but for messages that are handed over. */
  lemma {:induction false} QuietStep(s: System, t: System, a: nat)
    requires AllBalanced(s) && NoFuture(t) && a < |s.activities| && |t.activities| == |s.activities|
    requires t.activities == s.activities[a := t.activities[a]] && t.refused == s.refused
    requires forall h :: SameHistory(LogOf(s, h), LogOf(t, h))
    requires forall h :: !Carries(s.activities[a], Reply(h)) && !Carries(t.activities[a], Reply(h))
    ensures AllBalanced(t)
  {
    forall h, x ensures Balanced(t, h, x) {
      assert Balanced(s, h, x);
      assert !Carries(s.activities[a], Reply(h)) && !Carries(t.activities[a], Reply(h));
      assert SameHistory(LogOf(s, h), LogOf(t, h)) && SameHistory(LogOf(s, x), LogOf(t, x));
      MovesOn(s.activities, a, t.activities[a], Pushing(x, Reply(h)));
      MovesOn(s.activities, a, t.activities[a], Grabbed(x, Reply(h)));
    }
  }

  lemma {:induction false} ResumeCarries(after: After, m: Message)
    ensures !Carries(Resume(after), m)
  {
  }

  /** Activities other than senders, and other than dropping a message. */
  predicate Aside(s: System, a: nat)
    requires a < |s.activities|
  {
    && !s.activities[a].Pushing? && !s.activities[a].Grabbed? && s.activities[a] != Done
    && !(s.activities[a].Dropping? && s.activities[a].q in s.queues && s.queues[s.activities[a].q].messages != [])
  }

  /** What one step of such an activity leaves as it was. */
  lemma {:induction false} AsideStep(s: System, a: nat, c: Choice)
    requires Inv(s) && AllBalanced(s) && a < |s.activities| && Aside(s, a) && Go(s, a, c).Next?
    ensures AllBalanced(Go(s, a, c).s)
  {
    assert NoFuture(s);
    hide Go, Inv, AllBalanced, NoFuture, SameHistory, Carries, Aside;
    var t := Go(s, a, c).s;
    AsideCarries(s, a, c, Reply(0));
    forall h ensures !Carries(s.activities[a], Reply(h)) && !Carries(t.activities[a], Reply(h)) {
      AsideCarries(s, a, c, Reply(h));
    }
    AsideLogs(s, a, c);
    QuietStep(s, t, a);
  }

  /** Only this activity moves on, nothing is refused, and it carries no message. */
  ghost predicate MovesEmpty(s: System, a: nat, c: Choice, m: Message)
    requires a < |s.activities| && Go(s, a, c).Next?
  {
    var t := Go(s, a, c).s;
    && |t.activities| == |s.activities| && t.activities == s.activities[a := t.activities[a]]
    && t.refused == s.refused && !Carries(s.activities[a], m) && !Carries(t.activities[a], m)
  }

  lemma {:induction false} WorkerCarries(s: System, a: nat, c: Choice, m: Message)
    requires a < |s.activities| && Go(s, a, c).Next?
    requires var x := s.activities[a]; x.Idle? || x.Lookup? || x.Run? || x.Got? || x.Calling? || x.Swap?
    ensures MovesEmpty(s, a, c, m)
  {
    hide Share, LogOf;
  }

  lemma {:induction false} CloserCarries(s: System, a: nat, c: Choice, m: Message)
    requires a < |s.activities| && Aside(s, a) && Go(s, a, c).Next?
    requires var x := s.activities[a];
             x.Releasing? || x.Deleting? || x.Closing? || x.Dropping? || x.Freeing? || x.Retiring?
    ensures MovesEmpty(s, a, c, m)
  {
    hide LogOf, Resume;
    match s.activities[a]
    case Releasing(_, after) => ResumeCarries(after, m);
    case Deleting(_, after) => ResumeCarries(after, m);
    case Closing(_, after) => ResumeCarries(after, m);
    case Freeing(_, after) => ResumeCarries(after, m);
    case Retiring(_, after) => ResumeCarries(after, m);
    case _ =>
  }

  lemma {:induction false} CreatorCarries(s: System, a: nat, c: Choice, m: Message)
    requires a < |s.activities| && Go(s, a, c).Next?
    requires var x := s.activities[a]; x.Probing? || x.Creating? || x.Initing? || x.Publishing? || Unreferenced(x)
    ensures MovesEmpty(s, a, c, m)
  {
    hide LogOf;
  }

  lemma {:induction false} AsideCarries(s: System, a: nat, c: Choice, m: Message)
    requires a < |s.activities| && Aside(s, a) && Go(s, a, c).Next?
    ensures |Go(s, a, c).s.activities| == |s.activities|
    ensures Go(s, a, c).s.activities == s.activities[a := Go(s, a, c).s.activities[a]]
            && Go(s, a, c).s.refused == s.refused
    ensures !Carries(s.activities[a], m) && !Carries(Go(s, a, c).s.activities[a], m)
  {
    var x := s.activities[a];
    if x.Idle? || x.Lookup? || x.Run? || x.Got? || x.Calling? || x.Swap? {
      WorkerCarries(s, a, c, m);
    } else if x.Releasing? || x.Deleting? || x.Closing? || x.Dropping? || x.Freeing? || x.Retiring? {
      CloserCarries(s, a, c, m);
    } else {
      CreatorCarries(s, a, c, m);
    }
    hide Go, Carries, Aside;
  }

  /** The histories of all services but `q` are as before. */
  ghost predicate SameHistories(s: System, t: System, q: Handle) {
    forall h :: h != q ==> LogOf(t, h) == LogOf(s, h)
  }

  /** Does the step of this activity write down something? */
  predicate Records(x: Activity) { x.Got? || x.Deleting? || x.Freeing? || x.Creating? }

  lemma {:induction false} AsideUnrecorded(s: System, a: nat, c: Choice)
    requires a < |s.activities| && Aside(s, a) && Go(s, a, c).Next? && !Records(s.activities[a])
    ensures Go(s, a, c).s.logs == s.logs && Go(s, a, c).s.next == s.next
  {
  }

  lemma {:induction false} CallRecord(s: System, a: nat, c: Choice)
    requires a < |s.activities| && s.activities[a].Got? && Go(s, a, c).Next? && NoFuture(s)
    requires forall q <- s.queues :: 0 < q < s.next
    ensures var q, t := s.activities[a].q, Go(s, a, c).s;
            NoFuture(t) && SameHistories(s, t, q) && SameHistory(LogOf(s, q), LogOf(t, q))
  {
    hide DroppedSources;
    var m, l := s.activities[a].m, LogOf(s, s.activities[a].q);
    DroppedMore(l.fates, Called(m));
    DroppedMore(l.fates, Ignored(m));
  }

  lemma {:induction false} DeleteRecord(s: System, a: nat, c: Choice)
    requires a < |s.activities| && s.activities[a].Deleting? && Go(s, a, c).Next? && NoFuture(s)
    requires forall q <- s.queues :: 0 < q < s.next
    ensures var q, t := s.activities[a].h, Go(s, a, c).s;
            NoFuture(t) && SameHistories(s, t, q) && SameHistory(LogOf(s, q), LogOf(t, q))
  {
  }

  lemma {:induction false} FreeRecord(s: System, a: nat, c: Choice)
    requires a < |s.activities| && s.activities[a].Freeing? && Go(s, a, c).Next? && NoFuture(s)
    requires forall q <- s.queues :: 0 < q < s.next
    ensures var q, t := s.activities[a].q, Go(s, a, c).s;
            NoFuture(t) && SameHistories(s, t, q) && SameHistory(LogOf(s, q), LogOf(t, q))
  {
  }

  lemma {:induction false} CreateRecord(s: System, a: nat, c: Choice)
    requires a < |s.activities| && s.activities[a].Creating? && Go(s, a, c).Next? && NoFuture(s)
    ensures var q, t := s.next, Go(s, a, c).s;
            NoFuture(t) && SameHistories(s, t, q) && SameHistory(LogOf(s, q), LogOf(t, q))
  {
  }

  lemma {:induction false} AsideLogs(s: System, a: nat, c: Choice)
    requires Inv(s) && NoFuture(s) && a < |s.activities| && Aside(s, a) && Go(s, a, c).Next?
    ensures NoFuture(Go(s, a, c).s)
    ensures forall h :: SameHistory(LogOf(s, h), LogOf(Go(s, a, c).s, h))
  {
    Issued(s);
    if s.activities[a].Got? {
      CallRecord(s, a, c);
    } else if s.activities[a].Deleting? {
      DeleteRecord(s, a, c);
    } else if s.activities[a].Freeing? {
      FreeRecord(s, a, c);
    } else if s.activities[a].Creating? {
      CreateRecord(s, a, c);
    } else {
      AsideUnrecorded(s, a, c);
    }
  }

  /** Queues belong to services that were created. */
  lemma {:induction false} Issued(s: System)
    requires Inv(s)
    ensures forall q <- s.queues :: 0 < q < s.next
  {
    assert Opened(0);
    forall q | q in s.queues ensures 0 < q < s.next { assert ViewOk(ViewOf(s, q)); }
  }

  /** The parts of the balance between `h` and `x`, before and after a step. */
  ghost predicate Shifted(s: System, t: System, h: Handle, x: Handle) {
    && DroppedOf(t, h, x) - DroppedOf(s, h, x)
       == (OnTheWay(t, x, Reply(h)) - OnTheWay(s, x, Reply(h))) + (Arrived(t, x, Reply(h)) - Arrived(s, x, Reply(h)))
          + (Refused(t, x, Reply(h)) - Refused(s, x, Reply(h)))
  }

  lemma {:induction false} GrabShift(s: System, t: System, a: nat, x: Handle, m: Message, h: Handle, y: Handle)
    requires a < |s.activities| && s.activities[a] == Pushing(x, m) && t.activities == s.activities[a := Grabbed(x, m)]
    requires t.logs == s.logs && t.refused == s.refused
    ensures Shifted(s, t, h, y)
  {
  }

  lemma {:induction false} RefuseShift(s: System, a: nat, x: Handle, m: Message, h: Handle, y: Handle)
    requires a < |s.activities| && s.activities[a] == Pushing(x, m)
    ensures Shifted(s, At(Refuse(s, x, m), a, Done), h, y)
  {
  }

  lemma {:induction false} ArriveShift(s: System, t: System, a: nat, x: Handle, m: Message, h: Handle, y: Handle)
    requires a < |s.activities| && s.activities[a] == Grabbed(x, m)
             && t.activities == s.activities[a := Releasing(x, ToDone)]
    requires t.logs == s.logs[x := LogOf(s, x).(accepted := LogOf(s, x).accepted + [m])] && t.refused == s.refused
    ensures Shifted(s, t, h, y)
  {
    MovesOn(s.activities, a, Releasing(x, ToDone), Pushing(y, Reply(h)));
    assert LogOf(t, y) == if y == x then t.logs[x] else LogOf(s, y);
    assert LogOf(t, h).fates == LogOf(s, h).fates;
  }

  lemma {:induction false} SendShift(s: System, a: nat, c: Choice, h: Handle, y: Handle)
    requires a < |s.activities| && Go(s, a, c).Next?
    requires s.activities[a].Pushing? || s.activities[a].Grabbed?
    ensures Shifted(s, Go(s, a, c).s, h, y)
  {
    var x, m := s.activities[a].h, s.activities[a].m;
    if s.activities[a].Grabbed? {
      ArriveShift(s, Go(s, a, c).s, a, x, m, h, y);
    } else if x in s.registered {
      GrabShift(s, Go(s, a, c).s, a, x, m, h, y);
    } else {
      RefuseShift(s, a, x, m, h, y);
    }
  }

  lemma {:induction false} SendLogs(s: System, a: nat, c: Choice)
    requires Inv(s) && NoFuture(s) && a < |s.activities| && Go(s, a, c).Next?
    requires s.activities[a].Pushing? || s.activities[a].Grabbed?
    ensures NoFuture(Go(s, a, c).s)
  {
    Issued(s);
  }

  lemma {:induction false} SendStep(s: System, a: nat, c: Choice)
    requires Inv(s) && AllBalanced(s) && a < |s.activities| && Go(s, a, c).Next?
    requires s.activities[a].Pushing? || s.activities[a].Grabbed?
    ensures AllBalanced(Go(s, a, c).s)
  {
    SendLogs(s, a, c);
    forall h, y ensures Balanced(Go(s, a, c).s, h, y) {
      assert Balanced(s, h, y);
      SendShift(s, a, c, h, y);
    }
  }

  lemma {:induction false} DropShift(s: System, t: System, q: Handle, m: Message, h: Handle, y: Handle)
    requires t.activities == s.activities + [Pushing(m.source, Reply(q))] && t.refused == s.refused
    requires t.logs == s.logs[q := LogOf(s, q).(fates := LogOf(s, q).fates + [Dropped(m)])]
    ensures Shifted(s, t, h, y)
  {
    DroppedMore(LogOf(s, q).fates, Dropped(m));
    assert LogOf(t, h) == if h == q then t.logs[q] else LogOf(s, h);
    assert LogOf(t, y).accepted == LogOf(s, y).accepted;
  }

  lemma {:induction false} DropStep(s: System, a: nat, c: Choice)
    requires Inv(s) && AllBalanced(s) && a < |s.activities| && Go(s, a, c).Next?
    requires s.activities[a].Dropping? && s.activities[a].q in s.queues && s.queues[s.activities[a].q].messages != []
    ensures AllBalanced(Go(s, a, c).s)
  {
    Issued(s);
    var q := s.activities[a].q;
    var t := Go(s, a, c).s;
    forall h, y ensures Balanced(t, h, y) {
      assert Balanced(s, h, y);
      DropShift(s, t, q, s.queues[q].messages[0], h, y);
    }
  }

  lemma {:induction false} BeginShift(s: System, y: Activity, h: Handle, x: Handle)
    requires Entry(y)
    ensures var t := s.(activities := s.activities + [y]);
            OnTheWay(t, x, Reply(h)) == OnTheWay(s, x, Reply(h)) && Arrived(t, x, Reply(h)) == Arrived(s, x, Reply(h))
  {
    assert y != Pushing(x, Reply(h)) && y != Grabbed(x, Reply(h));
  }

  lemma {:induction false} BeginBalanced(s: System, y: Activity)
    requires AllBalanced(s) && Entry(y)
    ensures AllBalanced(s.(activities := s.activities + [y]))
  {
    hide DroppedSources;
    var t := s.(activities := s.activities + [y]);
    forall h, x ensures Balanced(t, h, x) {
      assert Balanced(s, h, x);
      BeginShift(s, y, h, x);
    }
  }

  lemma {:induction false} RunBalanced(steps: seq<Label>)
    requires RunAll(steps).Next?
    ensures AllBalanced(RunAll(steps).s)
  {
    if steps != [] {
      var before := RunAll(steps[..|steps| - 1]).s;
      RunBalanced(steps[..|steps| - 1]);
      RunSafe(steps[..|steps| - 1]);
      match steps[|steps| - 1]
      case Begin(y) => BeginBalanced(before, y);
      case Act(a, c) =>
        if before.activities[a].Pushing? || before.activities[a].Grabbed? {
          SendStep(before, a, c);
        } else if Aside(before, a) {
          AsideStep(before, a, c);
        } else {
          DropStep(before, a, c);
        }
    }
  }

  /** Over every run, of the messages of `x` that `h` dropped each was answered with one
      error, and each of these errors is being sent to `x`, or was accepted by `x`, or
      was refused because `x` was gone.  Nobody gets an error that is not such an answer. */
  lemma {:induction false} EveryDropAnswered(s: System, h: Handle, x: Handle)
    requires Reachable(s)
    ensures multiset(DroppedSources(LogOf(s, h).fates))[x]
            == multiset(s.activities)[Pushing(x, Reply(h))] + multiset(s.activities)[Grabbed(x, Reply(h))]
               + multiset(LogOf(s, x).accepted)[Reply(h)] + multiset(s.refused)[Letter(x, Reply(h))]
  {
    var steps :| RunAll(steps) == Next(s);
    RunBalanced(steps);
    assert Balanced(s, h, x);
  }

  /** When everything has come to rest, every error has arrived or was refused. */
  lemma {:induction false} AnsweredAtRest(s: System, h: Handle, x: Handle)
    requires Reachable(s) && Quiet(s)
    ensures multiset(DroppedSources(LogOf(s, h).fates))[x]
            == multiset(LogOf(s, x).accepted)[Reply(h)] + multiset(s.refused)[Letter(x, Reply(h))]
  {
    EveryDropAnswered(s, h, x);
    assert Pushing(x, Reply(h)) !in s.activities && Grabbed(x, Reply(h)) !in s.activities;
  }
}
