module SchedSafety {
  import opened Basics
  import opened SchedSystem
  import opened SchedInvariant

  /** What activities have, after one of them moved on. */
  lemma {:induction false} MovesView(s: System, a: nat, x: Activity, h: Handle)
    requires a < |s.activities|
    ensures ViewOf(At(s, a, x), h) == Shift(ViewOf(s, h), s.activities[a], x)
  {
    hide Sum, Times;
    SumUpdate(s.activities, a, x, Token, h);
    SumUpdate(s.activities, a, x, WorkToken, h);
    SumUpdate(s.activities, a, x, Reference, h);
    SumUpdate(s.activities, a, x, Deletion, h);
    SumUpdate(s.activities, a, x, Flight, h);
  }

  /** Whatever a step does to the entries of `q`, it leaves the other handles alone. */
  ghost predicate Elsewhere(s: System, t: System, q: Handle) {
    match t
    case System(next, _, _, _, _, activities, _, _) =>
      && next >= s.next && activities == s.activities
      && forall h | h != q :: SameEntries(s, t, h)
  }

  ghost predicate SameEntries(s: System, t: System, h: Handle) {
    && (0 < h < s.next <==> 0 < h < t.next)
    && (h in s.registered <==> h in t.registered)
    && (h in s.contexts <==> h in t.contexts) && (h in s.contexts ==> s.contexts[h] == t.contexts[h])
    && (h in s.queues <==> h in t.queues) && (h in s.queues ==> s.queues[h] == t.queues[h])
    && LogOf(s, h) == LogOf(t, h)
    && Times(s.global, h) == Times(t.global, h)
  }

  ghost predicate SameAssets(was: Activity, x: Activity, q: Handle) {
    match x
    case _ => forall k: Kind, h: Handle :: h != q ==> Has(was, k, h) == Has(x, k, h)
  }

  lemma {:induction false} SameView(s: System, t: System, h: Handle)
    requires SameEntries(s, t, h) && t.activities == s.activities
    ensures ViewOf(t, h) == ViewOf(s, h)
  {
    hide Sum, Times, LogOf;
  }

  lemma {:induction false} NothingShifts(v: View, was: Activity, x: Activity, q: Handle)
    requires SameAssets(was, x, q) && v.handle != q
    ensures Shift(v, was, x) == v
  {
    hide Sum, Times, Has;
  }

  lemma {:induction false} OtherView(s: System, t: System, a: nat, x: Activity, q: Handle, h: Handle)
    requires Elsewhere(s, t, q) && a < |s.activities| && SameAssets(s.activities[a], x, q) && h != q
    ensures ViewOf(At(t, a, x), h) == ViewOf(s, h)
  {
    hide Sum, Times, SameAssets, SameEntries, Shift;
    assert SameEntries(s, t, h);
    SameView(s, t, h);
    MovesView(t, a, x, h);
    NothingShifts(ViewOf(s, h), s.activities[a], x, q);
  }

  /** Whoever relies on a handle has its queue in hand. */
  lemma {:induction false} SubjectHeld(x: Activity, v: View)
    requires Stands(x, v) && SubjectOf(x) != 0
    ensures Has(x, Token, SubjectOf(x)) > 0
  {
  }

  lemma {:induction false} Knows(s: System, a: nat, q: Handle)
    requires Inv(s) && a < |s.activities|
    ensures Known(ViewOf(s, q), q, s.activities[a])
  {
    hide Sum, Times;
    assert Opened(0);
    var x := s.activities[a];
    SumUpdate(s.activities, a, Done, Token, q);
    SumUpdate(s.activities, a, Done, WorkToken, q);
    SumUpdate(s.activities, a, Done, Reference, q);
    SumUpdate(s.activities, a, Done, Deletion, q);
    SumUpdate(s.activities, a, Done, Flight, q);
    SumLeq(s.activities[a := Done], q);
    assert Stands(x, ViewOf(s, SubjectOf(x))) && ViewOk(ViewOf(s, q));
  }

  /** One step concerns one handle; it keeps the invariant if it keeps what is
      known about this handle. */
  lemma {:induction false} StepKeeps(s: System, t: System, a: nat, x: Activity, q: Handle)
    requires Inv(s) && Elsewhere(s, t, q) && a < |s.activities| && SameAssets(s.activities[a], x, q) && q != 0
    requires Good(Shift(ViewOf(t, q), s.activities[a], x), x)
    requires forall b | 0 <= b < |s.activities| && b != a && SubjectOf(s.activities[b]) == q ::
               Stands(s.activities[b], Shift(ViewOf(t, q), s.activities[a], x))
    requires SubjectOf(x) != q ==> Stands(x, ViewOf(s, SubjectOf(x)))
    ensures |t.activities| == |s.activities| && Inv(At(t, a, x))
  {
    hide Sum, Times;
    assert Opened(0);
    var s' := At(t, a, x);
    MovesView(t, a, x, q);
    forall h ensures ViewOk(ViewOf(s', h)) {
      assert ViewOk(ViewOf(s, h));
      if h != q { OtherView(s, t, a, x, q, h); }
    }
    forall b | 0 <= b < |s'.activities|
      ensures Stands(s'.activities[b], ViewOf(s', SubjectOf(s'.activities[b])))
    {
      var y := s'.activities[b];
      assert b != a ==> Stands(y, ViewOf(s, SubjectOf(y)));
      if SubjectOf(y) != q { OtherView(s, t, a, x, q, SubjectOf(y)); }
    }
  }

  /** The handle concerned is in this activity's hand, or was linked. */
  lemma {:induction false} OwnerKeeps(s: System, t: System, a: nat, x: Activity, q: Handle)
    requires Inv(s) && Elsewhere(s, t, q) && a < |s.activities| && SameAssets(s.activities[a], x, q) && q != 0
    requires Times(s.global, q) + Has(s.activities[a], Token, q) > 0
    requires Good(Shift(ViewOf(t, q), s.activities[a], x), x)
    requires SubjectOf(x) != q ==> Stands(x, ViewOf(s, SubjectOf(x)))
    ensures |t.activities| == |s.activities| && Inv(At(t, a, x))
  {
    hide Sum, Times;
    forall b | 0 <= b < |s.activities| && b != a && SubjectOf(s.activities[b]) == q
      ensures false
    {
      SoleOwner(s, a, b, q);
    }
    StepKeeps(s, t, a, x, q);
  }

  /** A queue is linked once, or in one hand. */
  lemma {:induction false} SoleOwner(s: System, a: nat, b: nat, q: Handle)
    requires Inv(s) && a < |s.activities| && b < |s.activities| && a != b && q != 0
    requires Times(s.global, q) + Has(s.activities[a], Token, q) > 0
    ensures SubjectOf(s.activities[b]) != q
  {
    hide Sum, Times;
    assert Opened(0);
    assert ViewOk(ViewOf(s, q));
    var y := s.activities[b];
    assert Stands(y, ViewOf(s, SubjectOf(y)));
    SumPair(s.activities, a, b, Token, q);
    if SubjectOf(y) == q { SubjectHeld(y, ViewOf(s, q)); }
  }

  // ------------------------------------------- changes of a single entry

  lemma {:induction false} QueueChange(s: System, q: Handle, e: Queue)
    ensures Elsewhere(s, WithQueue(s, q, e), q)
    ensures ViewOf(WithQueue(s, q, e), q) == ViewOf(s, q).(queue := Some(e))
  {
  }

  lemma {:induction false} ContextChange(s: System, q: Handle, c: Context)
    ensures Elsewhere(s, WithContext(s, q, c), q)
    ensures ViewOf(WithContext(s, q, c), q) == ViewOf(s, q).(context := Some(c))
  {
  }

  lemma {:induction false} LogChange(s: System, q: Handle, l: Log)
    ensures Elsewhere(s, WithLog(s, q, l), q)
    ensures ViewOf(WithLog(s, q, l), q) == ViewOf(s, q).(log := l)
  {
  }

  lemma {:induction false} NoChange(s: System, q: Handle)
    ensures Elsewhere(s, s, q)
  {
  }

  lemma {:induction false} TwoChanges(s: System, t: System, u: System, q: Handle)
    requires Elsewhere(s, t, q) && Elsewhere(t, u, q)
    ensures Elsewhere(s, u, q)
  {
    hide Sum, Times;
    forall h | h != q ensures SameEntries(s, u, h) {
      assert SameEntries(s, t, h) && SameEntries(t, u, h);
    }
  }

  lemma {:induction false} LinkChange(s: System, q: Handle)
    requires q in s.queues && ViewOf(s, q).linked == 0
    ensures PushGlobal(s, q).Next? && Elsewhere(s, PushGlobal(s, q).s, q)
    ensures ViewOf(PushGlobal(s, q).s, q) == ViewOf(s, q).(linked := 1)
  {
    hide Sum, Times;
    TimesIn(s.global, q);
    forall h ensures Times(s.global + [q], h) == Times(s.global, h) + One(q == h) { TimesAppend(s.global, q, h); }
  }

  /** Taking the first queue off the global list. */
  lemma {:induction false} UnlinkChange(s: System)
    requires Inv(s) && s.global != []
    ensures var q, t := s.global[0], s.(global := s.global[1..]);
            && q != 0 && Elsewhere(s, t, q)
            && ViewOf(s, q).linked == 1 && ViewOf(s, q).tokens == 0 && ViewOf(t, q) == ViewOf(s, q).(linked := 0)
  {
    hide Sum, Times;
    assert Opened(0);
    forall h ensures Times(s.global, h) == One(s.global[0] == h) + Times(s.global[1..], h) { TimesFirst(s.global, h); }
    assert ViewOk(ViewOf(s, s.global[0]));
  }

  // --------------------------------------------------------------- dispatch

  lemma {:induction false} LookupView(v: View, q: Handle, c: Context)
    requires Known(v, q, Lookup(q)) && v.registered && v.context == Some(c)
    ensures Good(Shift(v.(context := Some(c.(ref := c.ref + 1))), Lookup(q), Run(q, 0, 1)), Run(q, 0, 1))
  {
  }

  lemma {:induction false} FoundKeeps(s: System, a: nat, q: Handle)
    requires Inv(s) && a < |s.activities| && s.activities[a] == Lookup(q) && q in s.registered
    ensures GoLookup(s, a, q).Next? && Inv(GoLookup(s, a, q).s)
  {
    hide Sum, Times;
    Knows(s, a, q);
    var c := s.contexts[q];
    LookupView(ViewOf(s, q), q, c);
    ContextChange(s, q, c.(ref := c.ref + 1));
    OwnerKeeps(s, WithContext(s, q, c.(ref := c.ref + 1)), a, Run(q, 0, 1), q);
  }

  lemma {:induction false} NotFoundKeeps(s: System, a: nat, q: Handle)
    requires Inv(s) && a < |s.activities| && s.activities[a] == Lookup(q) && q !in s.registered
    ensures GoLookup(s, a, q).Next? && Inv(GoLookup(s, a, q).s)
  {
    hide Sum, Times;
    Knows(s, a, q);
    NoChange(s, q);
    OwnerKeeps(s, s, a, Closing(q, ToIdle), q);
  }

  lemma {:induction false} EmptyView(v: View, q: Handle, i: nat, n: nat, e: Queue)
    requires Known(v, q, Run(q, i, n)) && v.queue == Some(e) && e.messages == []
    ensures Good(Shift(v.(queue := Some(e.(inGlobal := false))), Run(q, i, n), Releasing(q, ToIdle)),
            Releasing(q, ToIdle))
  {
  }

  lemma {:induction false} EmptyKeeps(s: System, a: nat, q: Handle, i: nat, n: nat)
    requires Inv(s) && a < |s.activities| && s.activities[a] == Run(q, i, n) && q in s.queues
             && s.queues[q].messages == []
    ensures GoPop(s, a, q, i, n).Next? && Inv(GoPop(s, a, q, i, n).s)
  {
    hide Sum, Times;
    Knows(s, a, q);
    var e := s.queues[q];
    QueueChange(s, q, e.(inGlobal := false));
    EmptyView(ViewOf(s, q), q, i, n, e);
    OwnerKeeps(s, WithQueue(s, q, e.(inGlobal := false)), a, Releasing(q, ToIdle), q);
  }

  lemma {:induction false} TakeView(v: View, q: Handle, i: nat, n: nat, e: Queue)
    requires Known(v, q, Run(q, i, n)) && v.queue == Some(e) && e.messages != []
    ensures var x := Got(q, i, n, e.messages[0]);
            Good(Shift(v.(queue := Some(e.(messages := e.messages[1..]))), Run(q, i, n), x), x)
  {
    hide Sum, Times;
    if v.flights == 0 { AccountsTake(v.log.accepted, v.log.fates, e.messages); }
  }

  lemma {:induction false} TakeKeeps(s: System, a: nat, q: Handle, i: nat, n: nat)
    requires Inv(s) && a < |s.activities| && s.activities[a] == Run(q, i, n) && q in s.queues
             && s.queues[q].messages != []
    ensures GoPop(s, a, q, i, n).Next? && Inv(GoPop(s, a, q, i, n).s)
  {
    hide Sum, Times;
    Knows(s, a, q);
    var e := s.queues[q];
    QueueChange(s, q, e.(messages := e.messages[1..]));
    TakeView(ViewOf(s, q), q, i, n, e);
    OwnerKeeps(s, WithQueue(s, q, e.(messages := e.messages[1..])), a, Got(q, i, n, e.messages[0]), q);
  }

  lemma {:induction false} StayKeeps(s: System, a: nat, q: Handle, i: nat, n: nat)
    requires Inv(s) && a < |s.activities| && s.activities[a] == Run(q, i, n)
    ensures Inv(At(s, a, Releasing(q, ToLookup(q))))
  {
    hide Sum, Times;
    Knows(s, a, q);
    NoChange(s, q);
    OwnerKeeps(s, s, a, Releasing(q, ToLookup(q)), q);
  }

  lemma {:induction false} SwapKeeps(s: System, a: nat, q: Handle, i: nat, n: nat)
    requires Inv(s) && a < |s.activities| && s.activities[a] == Run(q, i, n) && s.global != []
    ensures Inv(At(s.(global := s.global[1..]), a, Swap(q, s.global[0])))
  {
    hide Sum, Times;
    Knows(s, a, q);
    var next := s.global[0];
    UnlinkChange(s);
    Knows(s, a, next);
    assert next != q;
    OwnerKeeps(s, s.(global := s.global[1..]), a, Swap(q, next), next);
  }

  lemma {:induction false} IdleKeeps(s: System, a: nat)
    requires Inv(s) && a < |s.activities| && s.activities[a] == Idle
    ensures PopGlobal(s, a).Next? && Inv(PopGlobal(s, a).s)
  {
    hide Sum, Times;
    if s.global != [] {
      UnlinkChange(s);
      Knows(s, a, s.global[0]);
      OwnerKeeps(s, s.(global := s.global[1..]), a, Lookup(s.global[0]), s.global[0]);
    }
  }

  lemma {:induction false} CallView(v: View, q: Handle, was: Activity, x: Activity, fates: seq<Fate>)
    requires was.Got? && q == was.q && Known(v, q, was) && q != 0
    requires (x.Run? || x.Calling?) && x.q == q
    requires Accounts(v.log.accepted, fates, [], Waiting(v)) && NoDrops(fates) && Orderly(fates)
    ensures Good(Shift(v.(log := v.log.(fates := fates)), was, x), x)
  {
  }

  lemma {:induction false} CallStep(s: System, a: nat, q: Handle, x: Activity, f: Fate)
    requires Inv(s) && a < |s.activities| && s.activities[a].Got? && s.activities[a].q == q && f.m == s.activities[a].m
    requires !f.Dropped? && (x.Run? || x.Calling?) && x.q == q
    ensures Inv(At(WithFate(s, q, f), a, x))
  {
    hide Sum, Times;
    Knows(s, a, q);
    var l := LogOf(s, q);
    LogChange(s, q, l.(fates := l.fates + [f]));
    OrderlyFate(l.fates, f);
    AccountsFate(l.accepted, l.fates, f, Waiting(ViewOf(s, q)));
    CallView(ViewOf(s, q), q, s.activities[a], x, l.fates + [f]);
    OwnerKeeps(s, WithFate(s, q, f), a, x, q);
  }

  lemma {:induction false} CallKeeps(s: System, a: nat, c: Choice, q: Handle, i: nat, n: nat, m: Message)
    requires Inv(s) && a < |s.activities| && s.activities[a] == Got(q, i, n, m)
    ensures GoCall(s, a, c, q, i, n, m).Next? && Inv(GoCall(s, a, c, q, i, n, m).s)
  {
    hide Sum, Times;
    Knows(s, a, q);
    var n' := Share(|s.queues[q].messages|, n, i, c.weight);
    if s.contexts[q].callback {
      CallStep(s, a, q, Calling(q, i, n'), Called(m));
    } else {
      CallStep(s, a, q, Run(q, i + 1, n'), Ignored(m));
    }
  }

  lemma {:induction false} ReturnKeeps(s: System, a: nat, c: Choice, q: Handle, i: nat, n: nat)
    requires Inv(s) && a < |s.activities| && s.activities[a] == Calling(q, i, n)
    ensures GoReturn(s, a, c, q, i, n).Next? && Inv(GoReturn(s, a, c, q, i, n).s)
  {
    hide Sum, Times;
    Knows(s, a, q);
    var c' := s.contexts[q].(callback := c.callback);
    ContextChange(s, q, c');
    OwnerKeeps(s, WithContext(s, q, c'), a, Run(q, i + 1, n), q);
  }

  lemma {:induction false} PushBackView(v: View, q: Handle, was: Activity, x: Activity)
    requires Known(v, q, was) && q != 0 && Hand(was) == q && OtherHand(was) != q && Hand(x) != q && OtherHand(x) != q
    requires Refers(was) == Refers(x) && !was.Got? && !x.Got? && !was.Deleting? && !x.Deleting? && SubjectOf(x) != q
    requires v.registered ==> Serves(v)
    ensures Good(Shift(v.(linked := 1), was, x), x)
  {
  }

  lemma {:induction false} PushBackKeeps(s: System, a: nat, q: Handle, next: Handle)
    requires Inv(s) && a < |s.activities| && s.activities[a] == Swap(q, next)
    ensures PushGlobal(s, q).Next? && Inv(At(PushGlobal(s, q).s, a, Releasing(q, ToLookup(next))))
  {
    hide Sum, Times;
    Knows(s, a, q);
    LinkChange(s, q);
    PushBackView(ViewOf(s, q), q, s.activities[a], Releasing(q, ToLookup(next)));
    OwnerKeeps(s, PushGlobal(s, q).s, a, Releasing(q, ToLookup(next)), q);
  }

  // ---------------------------------------------------------------- closing

  lemma {:induction false} ResumeStands(s: System, was: Activity, after: After, h: Handle)
    requires Inv(s) && (was == Releasing(h, after) || was == Deleting(h, after)) && was in s.activities
    ensures Stands(Resume(after), ViewOf(s, AfterSubject(after)))
    ensures SubjectOf(Resume(after)) == AfterSubject(after)
  {
    hide Sum, Times;
    assert Opened(0);
    var b :| 0 <= b < |s.activities| && s.activities[b] == was;
    assert Stands(s.activities[b], ViewOf(s, SubjectOf(s.activities[b])));
  }

  /** What others rely on is not touched by counting references, adding messages,
      retiring, or freeing a service that nobody refers to. */
  lemma {:induction false} StillStands(v: View, w: View, y: Activity)
    requires Stands(y, v) && ViewOk(v) && SubjectOf(y) != 0
    requires w.registered ==> v.registered && v.context.Some? && w.context.Some?
    requires w.registered ==> w.context.value.init == v.context.value.init
    requires if Refers(y) == SubjectOf(y) then
               w.context.Some? && v.context.Some? && w.context.value.init == v.context.value.init
             else true
    requires Waiting(w) == Waiting(v) && w.log.accepted == v.log.accepted && w.log.fates == v.log.fates
    requires v.queue.Some? && v.queue.value.release ==> w.queue == v.queue
    ensures Stands(y, w)
  {
  }

  /** The same, for everybody else. */
  lemma {:induction false} OthersStand(s: System, a: nat, h: Handle, w: View)
    requires Inv(s) && h != 0
    requires w.registered ==> h in s.registered && h in s.contexts
    requires Waiting(w) == Waiting(ViewOf(s, h)) && w.log.accepted == LogOf(s, h).accepted
             && w.log.fates == LogOf(s, h).fates
    requires h in s.queues && s.queues[h].release ==> w.queue == Some(s.queues[h])
    requires if h in s.contexts && w.context.Some? then w.context.value.init == s.contexts[h].init
             else !w.registered && ViewOf(s, h).references == 0
    ensures forall b | 0 <= b < |s.activities| && b != a && SubjectOf(s.activities[b]) == h ::
              Stands(s.activities[b], w)
  {
    hide Sum, Times;
    assert Opened(0);
    forall b | 0 <= b < |s.activities| && b != a && SubjectOf(s.activities[b]) == h
      ensures Stands(s.activities[b], w)
    {
      SumUpdate(s.activities, b, Done, Reference, h);
      assert Stands(s.activities[b], ViewOf(s, SubjectOf(s.activities[b]))) && ViewOk(ViewOf(s, h));
      StillStands(ViewOf(s, h), w, s.activities[b]);
    }
  }

  lemma {:induction false} ReleaseView(v: View, h: Handle, after: After, c: Context, last: bool)
    requires Known(v, h, Releasing(h, after)) && v.context == Some(c) && h != 0 && (last <==> c.ref == 1)
    ensures var x := if last then Deleting(h, after) else Resume(after);
            Good(Shift(v.(context := Some(c.(ref := c.ref - 1))), Releasing(h, after), x), x)
  {
  }

  lemma {:induction false} ResumeAssets(h: Handle, after: After)
    ensures SameAssets(Releasing(h, after), Resume(after), h)
    ensures SameAssets(Releasing(h, after), Deleting(h, after), h)
    ensures SameAssets(Deleting(h, after), Resume(after), h)
  {
  }

  lemma {:induction false} ReleaseStep(s: System, a: nat, h: Handle, after: After, x: Activity)
    requires Inv(s) && a < |s.activities| && s.activities[a] == Releasing(h, after) && h in s.contexts && h != 0
    requires s.contexts[h].ref > 0
    requires SubjectOf(x) != h ==> Stands(x, ViewOf(s, SubjectOf(x)))
    requires SameAssets(Releasing(h, after), x, h)
    requires var c := s.contexts[h].(ref := s.contexts[h].ref - 1);
             Good(Shift(ViewOf(s, h).(context := Some(c)), s.activities[a], x), x)
    ensures Inv(At(WithContext(s, h, s.contexts[h].(ref := s.contexts[h].ref - 1)), a, x))
  {
    hide Sum, Times;
    var c := s.contexts[h].(ref := s.contexts[h].ref - 1);
    ContextChange(s, h, c);
    OthersStand(s, a, h, Shift(ViewOf(s, h).(context := Some(c)), s.activities[a], x));
    StepKeeps(s, WithContext(s, h, c), a, x, h);
  }

  lemma {:induction false} ReleaseKeeps(s: System, a: nat, h: Handle, after: After)
    requires Inv(s) && a < |s.activities| && s.activities[a] == Releasing(h, after)
    ensures var o := GoRelease(s, a, h, Deleting(h, after), Resume(after)); o.Next? && Inv(o.s)
  {
    hide Sum, Times;
    Knows(s, a, h);
    var c := s.contexts[h];
    ReleaseView(ViewOf(s, h), h, after, c, c.ref == 1);
    ResumeStands(s, s.activities[a], after, h);
    ResumeAssets(h, after);
    ReleaseStep(s, a, h, after, if c.ref == 1 then Deleting(h, after) else Resume(after));
  }

  lemma {:induction false} DeleteView(v: View, h: Handle, after: After, e: Queue)
    requires Known(v, h, Deleting(h, after)) && v.queue == Some(e) && h != 0
    ensures var w := v.(context := None, queue := Some(e.(release := true)),
                        log := v.log.(contextFrees := v.log.contextFrees + 1), linked := v.linked + One(!e.inGlobal));
            var x := Shift(w, Deleting(h, after), Resume(after));
            && Good(x, Resume(after)) && v.references == 0 && x.context.None? && !x.registered
            && Waiting(x) == Waiting(v) && x.log.accepted == v.log.accepted && x.log.fates == v.log.fates
            && !e.release && (!e.inGlobal ==> v.linked == 0)
  {
  }

  lemma {:induction false} DeleteChange(s: System, h: Handle, e: Queue, l: Log)
    requires h in s.contexts && h in s.queues && s.queues[h] == e && !e.release && l == LogOf(s, h)
    requires !e.inGlobal ==> ViewOf(s, h).linked == 0
    ensures Delete(s, h).Next? && Elsewhere(s, Delete(s, h).s, h)
    ensures ViewOf(Delete(s, h).s, h) == ViewOf(s, h).(context := None, queue := Some(e.(release := true)),
              log := l.(contextFrees := l.contextFrees + 1), linked := ViewOf(s, h).linked + One(!e.inGlobal))
  {
    hide Sum, Times;
    var s' := WithLog(WithQueue(s, h, e.(release := true)), h, l.(contextFrees := l.contextFrees + 1))
              .(contexts := s.contexts - {h});
    assert Elsewhere(s, s', h);
    if !e.inGlobal {
      LinkChange(s', h);
      TwoChanges(s, s', PushGlobal(s', h).s, h);
    }
  }

  lemma {:induction false} DeleteStep(s: System, t: System, a: nat, h: Handle, after: After, w: View)
    requires Inv(s) && a < |s.activities| && s.activities[a] == Deleting(h, after) && Elsewhere(s, t, h)
    requires w == Shift(ViewOf(t, h), Deleting(h, after), Resume(after)) && Good(w, Resume(after)) && h != 0
    requires ViewOf(s, h).references == 0 && w.context.None? && !w.registered
    requires Waiting(w) == Waiting(ViewOf(s, h)) && w.log.accepted == LogOf(s, h).accepted
             && w.log.fates == LogOf(s, h).fates
    requires h in s.queues && !s.queues[h].release
    ensures |t.activities| == |s.activities| && Inv(At(t, a, Resume(after)))
  {
    hide Sum, Times;
    ResumeStands(s, s.activities[a], after, h);
    ResumeAssets(h, after);
    OthersStand(s, a, h, w);
    StepKeeps(s, t, a, Resume(after), h);
  }

  lemma {:induction false} DeleteReady(s: System, a: nat, h: Handle, after: After)
    requires Inv(s) && a < |s.activities| && s.activities[a] == Deleting(h, after)
    ensures h != 0 && h in s.contexts && h in s.queues && !s.queues[h].release
    ensures var v, e := ViewOf(s, h), s.queues[h];
            var w := v.(context := None, queue := Some(e.(release := true)),
                        log := LogOf(s, h).(contextFrees := LogOf(s, h).contextFrees + 1),
                        linked := v.linked + One(!e.inGlobal));
            var x := Shift(w, Deleting(h, after), Resume(after));
            && (!e.inGlobal ==> v.linked == 0) && v.references == 0
            && Good(x, Resume(after)) && x.context.None? && !x.registered
            && Waiting(x) == Waiting(v) && x.log.accepted == LogOf(s, h).accepted && x.log.fates == LogOf(s, h).fates
  {
    hide Sum, Times;
    Knows(s, a, h);
    DeleteView(ViewOf(s, h), h, after, s.queues[h]);
  }

  lemma {:induction false} DeleteKeeps(s: System, a: nat, h: Handle, after: After)
    requires Inv(s) && a < |s.activities| && s.activities[a] == Deleting(h, after)
    ensures Delete(s, h).Next? && |Delete(s, h).s.activities| == |s.activities|
            && Inv(At(Delete(s, h).s, a, Resume(after)))
  {
    hide Sum, Times;
    DeleteReady(s, a, h, after);
    hide ViewOf, Shift, Good, Waiting, Resume, Delete;
    DeleteChange(s, h, s.queues[h], LogOf(s, h));
    DeleteStep(s, Delete(s, h).s, a, h, after, Shift(ViewOf(Delete(s, h).s, h), Deleting(h, after), Resume(after)));
  }

  lemma {:induction false} PlainResume(q: Handle, after: After)
    requires Plain(after)
    ensures var x := Resume(after);
            && SubjectOf(x) == 0 && (forall v :: Stands(x, v)) && Hand(x) == NOBODY && OtherHand(x) == NOBODY
            && Refers(x) == NOBODY && !x.Got? && !x.Deleting?
            && SameAssets(Closing(q, after), x, q)
  {
  }

  lemma {:induction false} WaitKeeps(s: System, a: nat, q: Handle, after: After)
    requires Inv(s) && a < |s.activities| && s.activities[a] == Closing(q, after)
    requires q in s.queues && !s.queues[q].release
    ensures PushGlobal(s, q).Next? && |PushGlobal(s, q).s.activities| == |s.activities|
    ensures Inv(At(PushGlobal(s, q).s, a, Resume(after)))
  {
    hide Sum, Times;
    Knows(s, a, q);
    LinkChange(s, q);
    PlainResume(q, after);
    PushBackView(ViewOf(s, q), q, Closing(q, after), Resume(after));
    OwnerKeeps(s, PushGlobal(s, q).s, a, Resume(after), q);
  }

  lemma {:induction false} CloseKeeps(s: System, a: nat, q: Handle, after: After)
    requires Inv(s) && a < |s.activities| && s.activities[a] == Closing(q, after)
    ensures GoClose(s, a, q, after).Next? && Inv(GoClose(s, a, q, after).s)
  {
    hide Sum, Times;
    Knows(s, a, q);
    if s.queues[q].release {
      NoChange(s, q);
      OwnerKeeps(s, s, a, Dropping(q, after), q);
    } else {
      WaitKeeps(s, a, q, after);
    }
  }

  lemma {:induction false} DropEmptyKeeps(s: System, a: nat, q: Handle, after: After)
    requires Inv(s) && a < |s.activities| && s.activities[a] == Dropping(q, after)
    requires q in s.queues && s.queues[q].messages == []
    ensures GoDrop(s, a, q, after).Next? && Inv(GoDrop(s, a, q, after).s)
  {
    hide Sum, Times;
    Knows(s, a, q);
    QueueChange(s, q, s.queues[q].(inGlobal := false));
    OwnerKeeps(s, WithQueue(s, q, s.queues[q].(inGlobal := false)), a, Freeing(q, after), q);
  }

  lemma {:induction false} DropView(v: View, q: Handle, after: After, e: Queue, rest: seq<Message>, fates: seq<Fate>)
    requires Known(v, q, Dropping(q, after)) && v.queue == Some(e) && e.messages != [] && q != 0
    requires Accounts(v.log.accepted, fates, [], rest) && Orderly(fates)
    ensures var w := v.(queue := Some(e.(messages := rest)),
                        log := v.log.(fates := fates));
            Good(Shift(w, Dropping(q, after), Dropping(q, after)), Dropping(q, after))
  {
  }

  lemma {:induction false} BeginKeeps(s: System, x: Activity)
    requires Inv(s) && (Entry(x) || x.Pushing?)
    ensures Inv(s.(activities := s.activities + [x]))
  {
    hide Sum, Times;
    assert Opened(0);
    var s' := s.(activities := s.activities + [x]);
    forall h ensures ViewOf(s', h) == ViewOf(s, h) {
      SumAppend(s.activities, x, Token, h);
      SumAppend(s.activities, x, WorkToken, h);
      SumAppend(s.activities, x, Reference, h);
      SumAppend(s.activities, x, Deletion, h);
      SumAppend(s.activities, x, Flight, h);
    }
    forall h ensures ViewOk(ViewOf(s', h)) { assert ViewOk(ViewOf(s, h)); }
    forall b | 0 <= b < |s'.activities|
      ensures Stands(s'.activities[b], ViewOf(s', SubjectOf(s'.activities[b])))
    {
      assert b < |s.activities| ==> Stands(s.activities[b], ViewOf(s, SubjectOf(s.activities[b])));
    }
  }

  lemma {:induction false} DropKeeps(s: System, a: nat, q: Handle, after: After)
    requires Inv(s) && a < |s.activities| && s.activities[a] == Dropping(q, after)
    requires q in s.queues && s.queues[q].messages != []
    ensures GoDrop(s, a, q, after).Next? && Inv(GoDrop(s, a, q, after).s)
  {
    hide Sum, Times;
    Knows(s, a, q);
    var e := s.queues[q];
    var s1 := WithQueue(s, q, e.(messages := e.messages[1..]));
    var t := WithFate(s1, q, Dropped(e.messages[0]));
    QueueChange(s, q, e.(messages := e.messages[1..]));
    LogChange(s1, q, LogOf(t, q));
    TwoChanges(s, s1, t, q);
    var l := LogOf(s, q);
    AccountsTake(l.accepted, l.fates, e.messages);
    AccountsFate(l.accepted, l.fates, Dropped(e.messages[0]), e.messages[1..]);
    OrderlyFate(l.fates, Dropped(e.messages[0]));
    DropView(ViewOf(s, q), q, after, e, e.messages[1..], l.fates + [Dropped(e.messages[0])]);
    OwnerKeeps(s, t, a, Dropping(q, after), q);
    assert At(t, a, Dropping(q, after)) == t;
    BeginKeeps(t, Pushing(e.messages[0].source, Message(q, 0, true)));
  }

  lemma {:induction false} FreeChange(s: System, q: Handle, l: Log)
    ensures Elsewhere(s, WithLog(s.(queues := s.queues - {q}), q, l), q)
    ensures ViewOf(WithLog(s.(queues := s.queues - {q}), q, l), q) == ViewOf(s, q).(queue := None, log := l)
  {
  }

  lemma {:induction false} FreeView(v: View, q: Handle, after: After)
    requires Known(v, q, Freeing(q, after)) && q != 0
    ensures Good(Shift(v.(queue := None, log := v.log.(queueFrees := v.log.queueFrees + 1)), Freeing(q, after),
            Resume(after)),
                 Resume(after))
  {
  }

  lemma {:induction false} FreeKeeps(s: System, a: nat, q: Handle, after: After)
    requires Inv(s) && a < |s.activities| && s.activities[a] == Freeing(q, after)
    ensures GoFree(s, a, q, after).Next? && Inv(GoFree(s, a, q, after).s)
  {
    hide Sum, Times;
    Knows(s, a, q);
    TimesIn(s.global, q);
    var l := LogOf(s, q);
    FreeChange(s, q, l.(queueFrees := l.queueFrees + 1));
    FreeView(ViewOf(s, q), q, after);
    OwnerKeeps(s, WithLog(s.(queues := s.queues - {q}), q, l.(queueFrees := l.queueFrees + 1)), a, Resume(after), q);
  }

  // ---------------------------------------- sending, probing, retiring

  /** Activities that have nothing of any service. */
  predicate EmptyHanded(x: Activity) {
    x.Pushing? || x.Probing? || x == Retiring(0, ToDone) || x.Announcing? || x.Answering? || x.Done?
  }

  lemma {:induction false} NothingHeld(x: Activity)
    requires EmptyHanded(x)
    ensures forall k, h :: Has(x, k, h) == 0
  {
  }

  lemma {:induction false} IdlersView(s: System, a: nat, x: Activity, h: Handle)
    requires a < |s.activities| && EmptyHanded(s.activities[a]) && EmptyHanded(x)
    ensures ViewOf(At(s, a, x), h) == ViewOf(s, h)
  {
    NothingHeld(s.activities[a]);
    NothingHeld(x);
    MovesView(s, a, x, h);
    hide ViewOf, Has, At;
  }

  lemma {:induction false} IdlersKeep(s: System, a: nat, x: Activity)
    requires Inv(s) && a < |s.activities| && EmptyHanded(s.activities[a]) && EmptyHanded(x)
    ensures Inv(At(s, a, x))
  {
    hide Sum, Times;
    assert Opened(0);
    forall h ensures ViewOf(At(s, a, x), h) == ViewOf(s, h) { IdlersView(s, a, x, h); }
    hide ViewOk, ViewOf;
    forall h ensures ViewOk(ViewOf(At(s, a, x), h)) { assert ViewOk(ViewOf(s, h)); }
    forall b | 0 <= b < |s.activities| && b != a
      ensures Stands(s.activities[b], ViewOf(At(s, a, x), SubjectOf(s.activities[b])))
    {
      assert Stands(s.activities[b], ViewOf(s, SubjectOf(s.activities[b])));
    }
  }

  lemma {:induction false} RefuseKeeps(s: System, a: nat, h: Handle, m: Message)
    requires Inv(s) && a < |s.activities| && s.activities[a] == Pushing(h, m)
    ensures Inv(At(Refuse(s, h, m), a, Done))
  {
    hide Sum, Times;
    assert Opened(0);
    IdlersKeep(s, a, Done);
    var t, u := At(s, a, Done), At(Refuse(s, h, m), a, Done);
    forall h ensures ViewOf(u, h) == ViewOf(t, h) {}
    forall h ensures ViewOk(ViewOf(u, h)) { assert ViewOk(ViewOf(t, h)); }
    forall b | 0 <= b < |u.activities| ensures Stands(u.activities[b], ViewOf(u, SubjectOf(u.activities[b]))) {
      assert Stands(t.activities[b], ViewOf(t, SubjectOf(t.activities[b])));
    }
  }

  lemma {:induction false} GrabView(v: View, h: Handle, was: Activity, x: Activity, c: Context)
    requires Known(v, h, was) && v.registered && v.context == Some(c) && (was.Pushing? || was.Probing?)
    requires x == Releasing(h, ToDone) || (x.Grabbed? && x.h == h)
    ensures h != 0
    ensures Good(Shift(v.(context := Some(c.(ref := c.ref + 1))), was, x), x)
  {
  }

  lemma {:induction false} GrabStep(s: System, a: nat, h: Handle, x: Activity, c: Context)
    requires Inv(s) && a < |s.activities| && h in s.contexts && h != 0 && SameAssets(s.activities[a], x, h)
    requires c.init == s.contexts[h].init && h in s.registered && (x == Releasing(h, ToDone) || x.Grabbed?)
    requires Good(Shift(ViewOf(s, h).(context := Some(c)), s.activities[a], x), x)
    ensures Inv(At(WithContext(s, h, c), a, x))
  {
    hide Sum, Times;
    var v := ViewOf(s, h);
    var w := Shift(v.(context := Some(c)), s.activities[a], x);
    ContextChange(s, h, c);
    assert w.queue == v.queue && w.log == v.log && w.registered && w.context == Some(c);
    OthersStand(s, a, h, w);
    StepKeeps(s, WithContext(s, h, c), a, x, h);
  }

  lemma {:induction false} GrabKeeps(s: System, a: nat, h: Handle, x: Activity)
    requires Inv(s) && a < |s.activities| && (s.activities[a].Pushing? || s.activities[a].Probing?)
    requires x == Releasing(h, ToDone) || (x.Grabbed? && x.h == h)
    requires h in s.registered
    ensures GoGrab(s, a, h, x).Next? && Inv(GoGrab(s, a, h, x).s)
  {
    hide Sum, Times;
    Knows(s, a, h);
    var c := s.contexts[h];
    GrabView(ViewOf(s, h), h, s.activities[a], x, c);
    GrabStep(s, a, h, x, c.(ref := c.ref + 1));
  }

  lemma {:induction false} PushView(v: View, h: Handle, m: Message, e: Queue)
    requires Known(v, h, Grabbed(h, m)) && v.queue == Some(e) && h != 0
    ensures var w := v.(queue := Some(e.(inGlobal := true, messages := e.messages + [m])),
                        log := v.log.(accepted := v.log.accepted + [m]), linked := v.linked + One(!e.inGlobal));
            Good(Shift(w, Grabbed(h, m), Releasing(h, ToDone)), Releasing(h, ToDone))
  {
    hide Sum, Times;
    if v.flights == 0 { AccountsPush(v.log.accepted, v.log.fates, [], e.messages, m); }
  }

  lemma {:induction false} PushChange(s: System, h: Handle, m: Message, e: Queue, l: Log)
    requires h in s.queues && s.queues[h] == e && l == LogOf(s, h) && (!e.inGlobal ==> ViewOf(s, h).linked == 0)
    ensures PushMessage(s, h, m).Next? && Elsewhere(s, PushMessage(s, h, m).s, h)
    ensures ViewOf(PushMessage(s, h, m).s, h)
            == ViewOf(s, h).(queue := Some(e.(inGlobal := true, messages := e.messages + [m])),
                 log := l.(accepted := l.accepted + [m]), linked := ViewOf(s, h).linked + One(!e.inGlobal))
  {
    hide Sum, Times;
    var s' := WithLog(WithQueue(s, h, e.(inGlobal := true, messages := e.messages + [m])), h,
                      l.(accepted := l.accepted + [m]));
    assert Elsewhere(s, s', h);
    if !e.inGlobal {
      LinkChange(s', h);
      TwoChanges(s, s', PushGlobal(s', h).s, h);
    }
  }

  lemma {:induction false} PushStands(v: View, w: View, y: Activity, h: Handle, m: Message, e: Queue)
    requires Stands(y, v) && v.queue == Some(e) && !e.release && SubjectOf(y) == h != 0
    requires w.queue == Some(e.(inGlobal := true, messages := e.messages + [m]))
    requires w.registered == v.registered && w.context == v.context
    requires w.log == v.log.(accepted := v.log.accepted + [m])
    ensures Stands(y, w)
  {
    hide Sum, Times;
    if y.Got? { AccountsPush(v.log.accepted, v.log.fates, [y.m], e.messages, m); }
  }

  lemma {:induction false} PushOthers(s: System, a: nat, h: Handle, m: Message, w: View, e: Queue)
    requires Inv(s) && ViewOf(s, h).queue == Some(e) && !e.release && h != 0
    requires w.queue == Some(e.(inGlobal := true, messages := e.messages + [m]))
    requires w.registered == ViewOf(s, h).registered && w.context == ViewOf(s, h).context
    requires w.log == ViewOf(s, h).log.(accepted := ViewOf(s, h).log.accepted + [m])
    ensures forall b | 0 <= b < |s.activities| && b != a && SubjectOf(s.activities[b]) == h ::
              Stands(s.activities[b], w)
  {
    hide Sum, Times;
    assert Opened(0);
    forall b | 0 <= b < |s.activities| && b != a && SubjectOf(s.activities[b]) == h
      ensures Stands(s.activities[b], w)
    {
      assert Stands(s.activities[b], ViewOf(s, SubjectOf(s.activities[b])));
      PushStands(ViewOf(s, h), w, s.activities[b], h, m, e);
    }
  }

  lemma {:induction false} PushKeeps(s: System, a: nat, h: Handle, m: Message)
    requires Inv(s) && a < |s.activities| && s.activities[a] == Grabbed(h, m)
    ensures PushMessage(s, h, m).Next? && |PushMessage(s, h, m).s.activities| == |s.activities|
    ensures Inv(At(PushMessage(s, h, m).s, a, Releasing(h, ToDone)))
  {
    hide Sum, Times;
    Knows(s, a, h);
    PushChange(s, h, m, s.queues[h], LogOf(s, h));
    PushView(ViewOf(s, h), h, m, s.queues[h]);
    PushOthers(s, a, h, m, Shift(ViewOf(PushMessage(s, h, m).s, h), s.activities[a], Releasing(h, ToDone)),
      s.queues[h]);
    StepKeeps(s, PushMessage(s, h, m).s, a, Releasing(h, ToDone), h);
  }

  lemma {:induction false} RetireChange(s: System, h: Handle)
    ensures Elsewhere(s, s.(registered := s.registered - {h}), h)
    ensures ViewOf(s.(registered := s.registered - {h}), h) == ViewOf(s, h).(registered := false)
  {
  }

  lemma {:induction false} RetireReady(s: System, a: nat, h: Handle, after: After)
    requires Inv(s) && a < |s.activities| && s.activities[a] == Retiring(h, after) && h in s.registered
    ensures var v, x := ViewOf(s, h).(registered := false), Releasing(h, after);
            var w := Shift(v, s.activities[a], x);
            && h != 0 && Good(w, x) && SameAssets(s.activities[a], x, h)
            && (SubjectOf(x) != h ==> Stands(x, ViewOf(s, SubjectOf(x))))
            && Waiting(w) == Waiting(ViewOf(s, h)) && w.log == LogOf(s, h) && !w.registered && w.context == v.context
            && w.queue == v.queue && h in s.contexts
            && w.context == Some(s.contexts[h]) && (h in s.queues ==> w.queue == Some(s.queues[h]))
  {
    hide Sum, Times;
    assert Opened(0);
    Knows(s, a, h);
    assert Stands(s.activities[a], ViewOf(s, SubjectOf(s.activities[a])));
  }

  lemma {:induction false} RetireKeeps(s: System, a: nat, h: Handle, after: After)
    requires Inv(s) && a < |s.activities| && s.activities[a] == Retiring(h, after) && h in s.registered
    ensures Inv(At(s.(registered := s.registered - {h}), a, Releasing(h, after)))
  {
    hide Sum, Times;
    var t := s.(registered := s.registered - {h});
    RetireChange(s, h);
    RetireReady(s, a, h, after);
    hide Good, ViewOf, Inv, Elsewhere;
    OthersStand(s, a, h, Shift(ViewOf(t, h), s.activities[a], Releasing(h, after)));
    StepKeeps(s, t, a, Releasing(h, after), h);
  }

  lemma {:induction false} RetiredView(v: View, h: Handle, after: After)
    requires Known(v, h, Retiring(h, after)) && !v.registered && h != 0 && (after == ToDone || after == ToClose(h))
    ensures Good(Shift(v, Retiring(h, after), Resume(after)), Resume(after))
    ensures SameAssets(Retiring(h, after), Resume(after), h)
  {
  }

  lemma {:induction false} RetiredStep(s: System, a: nat, h: Handle, after: After)
    requires Inv(s) && a < |s.activities| && s.activities[a] == Retiring(h, after) && h !in s.registered && h != 0
    requires after == ToDone || after == ToClose(h)
    ensures Inv(At(s, a, Resume(after)))
  {
    hide Sum, Times;
    assert Opened(0);
    Knows(s, a, h);
    NoChange(s, h);
    RetiredView(ViewOf(s, h), h, after);
    assert forall b | 0 <= b < |s.activities| :: Stands(s.activities[b], ViewOf(s, SubjectOf(s.activities[b])));
    OthersUntouched(s, a, h, Shift(ViewOf(s, h), Retiring(h, after), Resume(after)));
    StepKeeps(s, s, a, Resume(after), h);
  }

  lemma {:induction false} OthersUntouched(s: System, a: nat, h: Handle, w: View)
    requires Inv(s)
    requires w == ViewOf(s, h).(tokens := w.tokens, workTokens := w.workTokens, references := w.references,
                                deletions := w.deletions, flights := w.flights)
    ensures forall b | 0 <= b < |s.activities| && b != a && SubjectOf(s.activities[b]) == h ::
              Stands(s.activities[b], w)
  {
    hide Sum, Times;
    assert Opened(0);
    forall b | 0 <= b < |s.activities| && b != a && SubjectOf(s.activities[b]) == h
      ensures Stands(s.activities[b], w)
    {
      assert Stands(s.activities[b], ViewOf(s, SubjectOf(s.activities[b])));
    }
  }

  lemma {:induction false} RetiredKeeps(s: System, a: nat, h: Handle, after: After)
    requires Inv(s) && a < |s.activities| && s.activities[a] == Retiring(h, after) && h !in s.registered
    ensures Inv(At(s, a, Resume(after)))
  {
    hide Sum, Times;
    assert Opened(0);
    Knows(s, a, h);
    assert Stands(s.activities[a], ViewOf(s, SubjectOf(s.activities[a])));
    if h == 0 {
      IdlersKeep(s, a, Done);
    } else {
      RetiredStep(s, a, h, after);
    }
  }

  // --------------------------------------------------------------- creation

  lemma {:induction false} CreateChange(s: System)
    requires Inv(s)
    ensures var h := s.next;
            var t := WithQueue(WithContext(s, h, Context(2, false, false)), h, Queue(true, false, []))
                     .(next := h + 1, registered := s.registered + {h}, logs := s.logs[h := Log([], [], 0, 0)]);
            && Elsewhere(s, t, h) && h != 0
            && ViewOf(t, h) == ViewOf(s, h).(issued := true, registered := true,
              context := Some(Context(2, false, false)),
                 queue := Some(Queue(true, false, [])), log := Log([], [], 0, 0))
  {
    hide Sum, Times;
    assert Opened(0);
  }

  lemma {:induction false} CreateView(v: View, h: Handle)
    requires Known(v, h, Creating) && !v.issued && h != 0
    ensures v.tokens == 0
    ensures Good(Shift(v.(issued := true, registered := true, context := Some(Context(2, false, false)),
                          queue := Some(Queue(true, false, [])), log := Log([], [], 0, 0)), Creating, Initing(h)),
                            Initing(h))
  {
    hide Sum, Times;
    NothingYet();
  }

  lemma {:induction false} CreateKeeps(s: System, a: nat)
    requires Inv(s) && a < |s.activities| && s.activities[a] == Creating
    ensures Inv(GoCreate(s, a))
  {
    hide Sum, Times;
    var h := s.next;
    Knows(s, a, h);
    CreateChange(s);
    CreateView(ViewOf(s, h), h);
    forall b | 0 <= b < |s.activities| && SubjectOf(s.activities[b]) == h
      ensures false
    {
      Knows(s, b, h);
      SubjectHeld(s.activities[b], ViewOf(s, h));
    }
    var t := WithQueue(WithContext(s, h, Context(2, false, false)), h, Queue(true, false, []))
             .(next := h + 1, registered := s.registered + {h}, logs := s.logs[h := Log([], [], 0, 0)]);
    StepKeeps(s, t, a, Initing(h), h);
  }

  lemma {:induction false} InitedView(v: View, h: Handle, x: Activity, c: Context, callback: bool)
    requires Known(v, h, Initing(h)) && v.context == Some(c) && h != 0
    requires if c.ref == 1 then x == Deleting(h, ToPublish(h)) else x == SettingInit(h)
    ensures Good(Shift(v.(context := Some(c.(ref := c.ref - 1, callback := callback))), Initing(h), x), x)
  {
  }

  lemma {:induction false} InitedKeeps(s: System, a: nat, c: Choice, h: Handle)
    requires Inv(s) && a < |s.activities| && s.activities[a] == Initing(h) && c.initOk
    ensures GoInited(s, a, c, h).Next? && Inv(GoInited(s, a, c, h).s)
  {
    hide Sum, Times;
    Knows(s, a, h);
    var before := s.contexts[h];
    var now := before.(ref := before.ref - 1, callback := c.callback);
    var x := if before.ref == 1 then Deleting(h, ToPublish(h)) else SettingInit(h);
    ContextChange(s, h, now);
    InitedView(ViewOf(s, h), h, x, before, c.callback);
    OwnerKeeps(s, WithContext(s, h, now), a, x, h);
  }

  lemma {:induction false} FailedInitKeeps(s: System, a: nat, c: Choice, h: Handle)
    requires Inv(s) && a < |s.activities| && s.activities[a] == Initing(h) && !c.initOk
    ensures GoInited(s, a, c, h).Next? && Inv(GoInited(s, a, c, h).s)
  {
    hide Sum, Times;
    Knows(s, a, h);
    var now := s.contexts[h].(callback := c.callback);
    ContextChange(s, h, now);
    OwnerKeeps(s, WithContext(s, h, now), a, Releasing(h, ToRetire(h)), h);
  }

  lemma {:induction false} SetInitKeeps(s: System, a: nat, h: Handle)
    requires Inv(s) && a < |s.activities| && s.activities[a] == SettingInit(h) && h in s.contexts
    ensures SetInit(s, h).Next? && |SetInit(s, h).s.activities| == |s.activities|
    ensures Inv(At(SetInit(s, h).s, a, Publishing(h, true)))
  {
    hide Sum, Times;
    Knows(s, a, h);
    ContextChange(s, h, s.contexts[h].(init := true));
    OwnerKeeps(s, SetInit(s, h).s, a, Publishing(h, true), h);
  }

  lemma {:induction false} PublishReady(s: System, a: nat, h: Handle, x: Activity)
    requires Inv(s) && a < |s.activities| && s.activities[a].Publishing? && s.activities[a].h == h
    requires x == Announcing(h) || x == Answering(h) || x == Done
    ensures h != 0 && h in s.queues && ViewOf(s, h).linked == 0
    ensures Good(Shift(ViewOf(s, h).(linked := 1), s.activities[a], x), x)
    ensures SameAssets(s.activities[a], x, h) && Has(s.activities[a], Token, h) > 0 && SubjectOf(x) == 0
    ensures forall v :: Stands(x, v)
  {
    hide Sum, Times;
    Knows(s, a, h);
    PushBackView(ViewOf(s, h), h, s.activities[a], x);
  }

  lemma {:induction false} PublishKeeps(s: System, a: nat, h: Handle, x: Activity)
    requires Inv(s) && a < |s.activities| && s.activities[a].Publishing? && s.activities[a].h == h
    requires x == Announcing(h) || x == Answering(h) || x == Done
    ensures PushGlobal(s, h).Next? && |PushGlobal(s, h).s.activities| == |s.activities|
            && Inv(At(PushGlobal(s, h).s, a, x))
  {
    hide Sum, Times;
    PublishReady(s, a, h, x);
    hide Inv, Good, Shift, Elsewhere, SameAssets, Has, Stands;
    LinkChange(s, h);
    OwnerKeeps(s, PushGlobal(s, h).s, a, x, h);
  }

  // ------------------------------------------------------------------- runs

  lemma {:induction false} WorkerKeeps(s: System, a: nat, c: Choice)
    requires Inv(s) && a < |s.activities|
    requires var x := s.activities[a]; x.Idle? || x.Lookup? || x.Run? || x.Got? || x.Calling? || x.Swap?
    ensures Go(s, a, c).Next? && Inv(Go(s, a, c).s)
  {
    hide Sum, Times;
    match s.activities[a]
    case Idle => IdleKeeps(s, a);
    case Lookup(q) => if q in s.registered { FoundKeeps(s, a, q); } else { NotFoundKeeps(s, a, q); }
    case Run(q, i, n) => RunKeeps(s, a, q, i, n, c);
    case Got(q, i, n, m) => CallKeeps(s, a, c, q, i, n, m);
    case Calling(q, i, n) => ReturnKeeps(s, a, c, q, i, n);
    case Swap(q, next) => PushBackKeeps(s, a, q, next);
  }

  lemma {:induction false} RunKeeps(s: System, a: nat, q: Handle, i: nat, n: nat, c: Choice)
    requires Inv(s) && a < |s.activities| && s.activities[a] == Run(q, i, n)
    ensures Go(s, a, c).Next? && Inv(Go(s, a, c).s)
  {
    hide Sum, Times;
    if i < n {
      Knows(s, a, q);
      if s.queues[q].messages == [] { EmptyKeeps(s, a, q, i, n); } else { TakeKeeps(s, a, q, i, n); }
    } else if s.global == [] {
      StayKeeps(s, a, q, i, n);
    } else {
      SwapKeeps(s, a, q, i, n);
    }
  }

  lemma {:induction false} ClosingKeeps(s: System, a: nat, c: Choice)
    requires Inv(s) && a < |s.activities|
    requires var x := s.activities[a]; x.Releasing? || x.Deleting? || x.Closing? || x.Dropping? || x.Freeing?
    ensures Go(s, a, c).Next? && Inv(Go(s, a, c).s)
  {
    hide Sum, Times;
    match s.activities[a]
    case Releasing(h, after) => ReleaseKeeps(s, a, h, after);
    case Deleting(h, after) => DeleteKeeps(s, a, h, after);
    case Closing(q, after) => CloseKeeps(s, a, q, after);
    case Dropping(q, after) =>
      Knows(s, a, q);
      if s.queues[q].messages == [] { DropEmptyKeeps(s, a, q, after); } else { DropKeeps(s, a, q, after); }
    case Freeing(q, after) => FreeKeeps(s, a, q, after);
  }

  lemma {:induction false} ClientKeeps(s: System, a: nat, c: Choice)
    requires Inv(s) && a < |s.activities|
    requires var x := s.activities[a]; x.Pushing? || x.Grabbed? || x.Probing? || x.Retiring?
    ensures Go(s, a, c).Next? && Inv(Go(s, a, c).s)
  {
    hide Sum, Times;
    match s.activities[a]
    case Pushing(h, m) =>
      if h in s.registered { GrabKeeps(s, a, h, Grabbed(h, m)); } else { RefuseKeeps(s, a, h, m); }
    case Grabbed(h, m) => PushKeeps(s, a, h, m);
    case Probing(h) =>
      if h in s.registered { GrabKeeps(s, a, h, Releasing(h, ToDone)); } else { IdlersKeep(s, a, Done); }
    case Retiring(h, after) =>
      if h in s.registered { RetireKeeps(s, a, h, after); } else { RetiredKeeps(s, a, h, after); }
  }

  /** The creator of a service, and its caller, after the creator gave up its reference. */
  predicate Unreferenced(x: Activity) { x.SettingInit? || x.Announcing? || x.Answering? }

  /** Is this activity about to use a service that was freed? */
  predicate UsesFreed(s: System, a: nat)
    requires a < |s.activities|
  {
    Unreferenced(s.activities[a]) && s.activities[a].h !in s.contexts
  }

  lemma {:induction false} CreatorKeeps(s: System, a: nat, c: Choice)
    requires Inv(s) && a < |s.activities|
    requires var x := s.activities[a]; x.Creating? || x.Initing? || x.Publishing? || Unreferenced(x)
    requires !UsesFreed(s, a)
    ensures Go(s, a, c).Next? && Inv(Go(s, a, c).s)
  {
    hide Sum, Times;
    match s.activities[a]
    case Creating => CreateKeeps(s, a);
    case Initing(h) => if c.initOk { InitedKeeps(s, a, c, h); } else { FailedInitKeeps(s, a, c, h); }
    case SettingInit(h) => SetInitKeeps(s, a, h);
    case Publishing(h, kept) => PublishKeeps(s, a, h, if kept then Launched(h, c) else Done);
    case Announcing(h) => IdlersKeep(s, a, Returned(h, c));
    case Answering(h) => IdlersKeep(s, a, Done);
  }

  /** No step fails an assertion or touches what was freed, but for a creator, or its
      caller, that uses the new service too late; and every step keeps the invariant. */
  lemma {:induction false} GoKeeps(s: System, a: nat, c: Choice)
    requires Inv(s) && a < |s.activities|
    ensures if s.activities[a] == Done then Go(s, a, c).Blocked?
            else if UsesFreed(s, a) then Go(s, a, c).Fault?
            else Go(s, a, c).Next? && Inv(Go(s, a, c).s)
  {
    hide Sum, Times;
    var x := s.activities[a];
    if x.Idle? || x.Lookup? || x.Run? || x.Got? || x.Calling? || x.Swap? {
      WorkerKeeps(s, a, c);
    } else if x.Releasing? || x.Deleting? || x.Closing? || x.Dropping? || x.Freeing? {
      ClosingKeeps(s, a, c);
    } else if x.Pushing? || x.Grabbed? || x.Probing? || x.Retiring? {
      ClientKeeps(s, a, c);
    } else if x != Done && !UsesFreed(s, a) {
      CreatorKeeps(s, a, c);
    }
  }

  lemma {:induction false} StartInv()
    ensures Inv(START)
  {
    hide Sum, Times;
    assert Opened(0);
    forall h ensures ViewOk(ViewOf(START, h)) {
      EmptySums(Token, h);
      EmptySums(WorkToken, h);
      EmptySums(Reference, h);
      EmptySums(Deletion, h);
      EmptySums(Flight, h);
      NothingYet();
    }
  }

  /** Is step `k` of a run that of a creator, or its caller, that uses a service that was freed? */
  ghost predicate GoesWrongAt(steps: seq<Label>, k: nat)
    requires k < |steps|
  {
    && RunAll(steps[..k]).Next? && steps[k].Act?
    && steps[k].a < |RunAll(steps[..k]).s.activities| && UsesFreed(RunAll(steps[..k]).s, steps[k].a)
  }

  /** Over every run: no assertion fails, and nothing is used after it was freed or
      freed twice, unless a creator or its caller uses the new service too late; until
      then the invariant holds. */
  lemma {:induction false} RunSafe(steps: seq<Label>)
    ensures RunAll(steps).Fault? <==> exists k: nat :: k < |steps| && GoesWrongAt(steps, k)
    ensures RunAll(steps).Next? ==> Inv(RunAll(steps).s)
  {
    hide Sum, Times;
    if steps == [] {
      StartInv();
    } else {
      var m := |steps| - 1;
      var before := RunAll(steps[..m]);
      RunSafe(steps[..m]);
      forall k: nat | k < m ensures GoesWrongAt(steps[..m], k) <==> GoesWrongAt(steps, k) {
        assert steps[..m][..k] == steps[..k];
      }
      if before.Next? {
        forall k: nat | k < m ensures !GoesWrongAt(steps, k) {}
        LastStep(steps, before.s, steps[m]);
      } else {
        NeverAfter(steps, m);
        if before.Fault? {
          var k: nat :| k < m && GoesWrongAt(steps[..m], k);
          assert GoesWrongAt(steps, k);
        }
      }
    }
  }

  lemma {:induction false} LastStep(steps: seq<Label>, s: System, step: Label)
    requires steps != [] && step == steps[|steps| - 1] && RunAll(steps[..|steps| - 1]) == Next(s) && Inv(s)
    ensures RunAll(steps).Fault? <==> GoesWrongAt(steps, |steps| - 1)
    ensures RunAll(steps).Next? ==> Inv(RunAll(steps).s)
  {
    hide Sum, Times;
    match step
    case Begin(x) => if Entry(x) { BeginKeeps(s, x); }
    case Act(a, c) => if a < |s.activities| { GoKeeps(s, a, c); }
  }

  /** A run that has stopped takes no further step. */
  lemma {:induction false} NeverAfter(steps: seq<Label>, k: nat)
    requires k < |steps| && !RunAll(steps[..k]).Next?
    ensures !GoesWrongAt(steps, k)
  {
  }
}
