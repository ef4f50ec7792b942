/** What every step of the scheduler keeps: tokens, references, and messages add up. */
module SchedInvariant {
  import opened Basics
  import opened SchedSystem

  // ------------------------------------------------------------- accounting

  /** What activities can have of a service: its queue in hand, its queue in hand
      as a worker, a reference, its deletion, a message taken from its queue. */
  datatype Kind = Token | WorkToken | Reference | Deletion | Flight

  const NOBODY := -1

  function One(b: bool): nat { if b then 1 else 0 }

  function AfterHand(after: After): int {
    match after
    case ToLookup(q) => q
    case ToRetire(h) => h
    case ToClose(h) => h
    case ToPublish(h) => h
    case _ => NOBODY
  }

  /** The queue that an activity has in hand. */
  function Hand(x: Activity): int {
    match x
    case Lookup(q) => q
    case Run(q, _, _) => q
    case Got(q, _, _, _) => q
    case Calling(q, _, _) => q
    case Swap(q, _) => q
    case Releasing(_, after) => AfterHand(after)
    case Deleting(_, after) => AfterHand(after)
    case Closing(q, _) => q
    case Dropping(q, _) => q
    case Freeing(q, _) => q
    case Retiring(_, after) => AfterHand(after)
    case Initing(h) => h
    case SettingInit(h) => h
    case Publishing(h, _) => h
    case _ => NOBODY
  }

  /** A worker that swaps queues has two of them. */
  function OtherHand(x: Activity): int { if x.Swap? then x.next else NOBODY }

  predicate Working(x: Activity) {
    match x
    case Lookup(_) => true
    case Run(_, _, _) => true
    case Got(_, _, _, _) => true
    case Calling(_, _, _) => true
    case Swap(_, _) => true
    case Releasing(_, after) => after.ToLookup?
    case Deleting(_, after) => after.ToLookup?
    case Retiring(_, after) => after.ToLookup?
    case _ => false
  }

  /** The service that an activity has a reference to. */
  function Refers(x: Activity): int {
    match x
    case Run(q, _, _) => q
    case Got(q, _, _, _) => q
    case Calling(q, _, _) => q
    case Swap(q, _) => q
    case Releasing(h, _) => h
    case Grabbed(h, _) => h
    case Initing(h) => h
    case _ => NOBODY
  }

  function Has(x: Activity, k: Kind, h: Handle): nat {
    match k
    case Token => One(Hand(x) == h) + One(OtherHand(x) == h)
    case WorkToken => if Working(x) then One(Hand(x) == h) + One(OtherHand(x) == h) else 0
    case Reference => One(Refers(x) == h)
    case Deletion => One(x.Deleting? && x.h == h)
    case Flight => One(x.Got? && x.q == h)
  }

  function Sum(xs: seq<Activity>, k: Kind, h: Handle): nat {
    if xs == [] then 0 else Sum(xs[..|xs| - 1], k, h) + Has(xs[|xs| - 1], k, h)
  }

  function Times(g: seq<Handle>, h: Handle): nat {
    if g == [] then 0 else Times(g[..|g| - 1], h) + One(g[|g| - 1] == h)
  }

  lemma {:induction false} SumUpdate(xs: seq<Activity>, a: nat, x: Activity, k: Kind, h: Handle)
    requires a < |xs|
    ensures Sum(xs[a := x], k, h) == Sum(xs, k, h) - Has(xs[a], k, h) + Has(x, k, h)
    ensures Has(xs[a], k, h) <= Sum(xs, k, h)
  {
    var m := |xs| - 1;
    if a == m {
      assert xs[a := x][..m] == xs[..m];
    } else {
      assert xs[a := x][..m] == xs[..m][a := x];
      SumUpdate(xs[..m], a, x, k, h);
    }
  }

  lemma {:induction false} SumAppend(xs: seq<Activity>, x: Activity, k: Kind, h: Handle)
    ensures Sum(xs + [x], k, h) == Sum(xs, k, h) + Has(x, k, h)
  {
    assert (xs + [x])[..|xs|] == xs;
  }

  /** Two activities have at most what all of them have. */
  lemma {:induction false} SumPair(xs: seq<Activity>, a: nat, b: nat, k: Kind, h: Handle)
    requires a < |xs| && b < |xs| && a != b
    ensures Has(xs[a], k, h) + Has(xs[b], k, h) <= Sum(xs, k, h)
  {
    SumUpdate(xs, a, Done, k, h);
    SumUpdate(xs[a := Done], b, Done, k, h);
  }

  lemma {:induction false} SumLeq(xs: seq<Activity>, h: Handle)
    ensures Sum(xs, WorkToken, h) <= Sum(xs, Token, h) && Sum(xs, Flight, h) <= Sum(xs, Token, h)
  {
    if xs != [] { SumLeq(xs[..|xs| - 1], h); }
  }

  lemma {:induction false} EmptySums(k: Kind, h: Handle)
    ensures Sum([], k, h) == 0 && Times([], h) == 0
  {
  }

  lemma {:induction false} TimesAppend(g: seq<Handle>, q: Handle, h: Handle)
    ensures Times(g + [q], h) == Times(g, h) + One(q == h)
  {
    assert (g + [q])[..|g|] == g;
  }

  lemma {:induction false} TimesFirst(g: seq<Handle>, h: Handle)
    requires g != []
    ensures Times(g, h) == One(g[0] == h) + Times(g[1..], h)
  {
    var m := |g| - 1;
    if m > 0 {
      TimesFirst(g[..m], h);
      assert g[..m][1..] == g[1..][..m - 1];
    }
  }

  lemma {:induction false} TimesIn(g: seq<Handle>, h: Handle)
    ensures Times(g, h) > 0 <==> h in g
  {
    if g != [] { TimesIn(g[..|g| - 1], h); }
  }

  // ------------------------------------------------------------- invariants

  /** All there is to know about one handle: its entries, and who has what of it. */
  datatype View = View(
    handle: Handle, issued: bool, registered: bool, context: Option<Context>, queue: Option<Queue>, log: Log,
    linked: nat, tokens: int, workTokens: int, references: int, deletions: int, flights: int)

  ghost function ViewOf(s: System, h: Handle): View {
    View(h, 0 < h < s.next, h in s.registered,
         if h in s.contexts then Some(s.contexts[h]) else None,
         if h in s.queues then Some(s.queues[h]) else None,
         LogOf(s, h),
         Times(s.global, h),
         Sum(s.activities, Token, h), Sum(s.activities, WorkToken, h), Sum(s.activities, Reference, h),
         Sum(s.activities, Deletion, h), Sum(s.activities, Flight, h))
  }

  /** The view after an activity moved on. */
  function Shift(v: View, was: Activity, x: Activity): View {
    v.(tokens := v.tokens - Has(was, Token, v.handle) + Has(x, Token, v.handle),
       workTokens := v.workTokens - Has(was, WorkToken, v.handle) + Has(x, WorkToken, v.handle),
       references := v.references - Has(was, Reference, v.handle) + Has(x, Reference, v.handle),
       deletions := v.deletions - Has(was, Deletion, v.handle) + Has(x, Deletion, v.handle),
       flights := v.flights - Has(was, Flight, v.handle) + Has(x, Flight, v.handle))
  }

  function MessagesOf(fates: seq<Fate>): (r: seq<Message>)
    ensures |r| == |fates|
  {
    if fates == [] then [] else MessagesOf(fates[..|fates| - 1]) + [fates[|fates| - 1].m]
  }

  function DroppedSources(fates: seq<Fate>): seq<Handle> {
    if fates == [] then []
    else
      var f := fates[|fates| - 1];
      DroppedSources(fates[..|fates| - 1]) + if f.Dropped? then [f.m.source] else []
  }

  predicate NoDropsIn(fates: seq<Fate>) {
    fates == [] || (NoDropsIn(fates[..|fates| - 1]) && !fates[|fates| - 1].Dropped?)
  }

  predicate DropsLastIn(fates: seq<Fate>) {
    fates == [] ||
      (DropsLastIn(fates[..|fates| - 1]) && (fates[|fates| - 1].Dropped? || NoDropsIn(fates[..|fates| - 1])))
  }

  /** What was accepted, in order: what has met its fate, then what is in
      somebody's hands, then what is waiting. */
  ghost predicate Accounts(accepted: seq<Message>, fates: seq<Fate>, flying: seq<Message>, waiting: seq<Message>) {
    forall k :: Shown(k) ==> accepted == MessagesOf(fates) + (flying + waiting)
  }

  /** Dropped messages come last. */
  ghost predicate Orderly(fates: seq<Fate>) { forall k :: Shown(k) ==> DropsLastIn(fates) }

  ghost predicate NoDrops(fates: seq<Fate>) { forall k :: Shown(k) ==> NoDropsIn(fates) }

  lemma {:induction false} NothingYet()
    ensures Accounts([], [], [], []) && Orderly([]) && NoDrops([])
  {
  }

  lemma {:induction false} AccountsPush(accepted: seq<Message>, fates: seq<Fate>, flying: seq<Message>,
                                        waiting: seq<Message>, m: Message)
    requires Accounts(accepted, fates, flying, waiting)
    ensures Accounts(accepted + [m], fates, flying, waiting + [m])
  {
    assert Shown(0);
    assert MessagesOf(fates) + (flying + waiting) + [m] == MessagesOf(fates) + (flying + (waiting + [m]));
  }

  lemma {:induction false} AccountsTake(accepted: seq<Message>, fates: seq<Fate>, waiting: seq<Message>)
    requires Accounts(accepted, fates, [], waiting) && waiting != []
    ensures Accounts(accepted, fates, [waiting[0]], waiting[1..])
  {
    assert Shown(0);
    assert [] + waiting == [waiting[0]] + waiting[1..];
  }

  lemma {:induction false} AccountsFate(accepted: seq<Message>, fates: seq<Fate>, f: Fate, waiting: seq<Message>)
    requires Accounts(accepted, fates, [f.m], waiting)
    ensures Accounts(accepted, fates + [f], [], waiting)
  {
    assert Shown(0);
    assert (fates + [f])[..|fates|] == fates;
    assert MessagesOf(fates) + ([f.m] + waiting) == MessagesOf(fates) + [f.m] + ([] + waiting);
  }

  lemma {:induction false} OrderlyFate(fates: seq<Fate>, f: Fate)
    requires Orderly(fates) && (f.Dropped? || NoDrops(fates))
    ensures Orderly(fates + [f])
    ensures !f.Dropped? ==> NoDrops(fates + [f])
  {
    assert Shown(0);
    assert (fates + [f])[..|fates|] == fates;
  }

  function Waiting(v: View): seq<Message> { if v.queue.Some? then v.queue.value.messages else [] }

  /** A marked queue is linked once or in one hand; any other queue is not. */
  predicate TokenOk(v: View) {
    v.linked + v.tokens == One(v.queue.Some? && v.queue.value.Marked())
  }

  /** The reference count counts the registry and the activities that use the service. */
  predicate ReferenceOk(v: View) {
    match v.context
    case Some(c) => c.ref == v.references + One(v.registered) && v.deletions == One(c.ref == 0)
    case None => v.references == 0 && v.deletions == 0 && !v.registered
  }

  /** The service goes first, and marks its queue; each is freed once. */
  predicate LifeOk(v: View) {
    && (v.queue.Some? ==> v.issued)
    && (v.context.Some? <==> v.queue.Some? && !v.queue.value.release)
    && (v.queue.Some? && v.queue.value.messages != [] ==> v.queue.value.inGlobal)
    && v.log.contextFrees == One(v.issued && v.context.None?)
    && v.log.queueFrees == One(v.issued && v.queue.None?)
  }

  /** Workers cannot get at the queue of a registered service before it is initialised. */
  predicate InitOk(v: View) {
    (v.registered && v.context.Some? && !v.context.value.init)
      ==> (v.linked + v.workTokens == 0 && v.queue.Some? && v.queue.value.inGlobal)
  }

  /** Every accepted message has met its fate, or is being handed over, or is still in the queue. */
  ghost predicate LogOk(v: View) {
    && (v.flights == 0 ==> Accounts(v.log.accepted, v.log.fates, [], Waiting(v)))
    && Orderly(v.log.fates)
    && (v.context.Some? ==> NoDrops(v.log.fates))
  }

  ghost predicate ViewOk(v: View) {
    match v
    case View(_, _, _, _, _, _, _, _, _, _, _, _) =>
      TokenOk(v) && ReferenceOk(v) && LifeOk(v) && InitOk(v) && LogOk(v)
  }

  predicate Serves(v: View) { v.context.Some? && v.context.value.init }

  predicate AfterOk(after: After, v: View) {
    match after
    case ToClose(_) => !v.registered
    case ToPublish(_) => v.registered ==> Serves(v)
    case _ => true
  }

  /** The service that the next assumptions of an activity are about. */
  function SubjectOf(x: Activity): Handle {
    match x
    case Run(q, _, _) => q
    case Got(q, _, _, _) => q
    case Calling(q, _, _) => q
    case Swap(q, _) => q
    case Releasing(_, after) => AfterSubject(after)
    case Deleting(_, after) => AfterSubject(after)
    case Closing(q, _) => q
    case Dropping(q, _) => q
    case Freeing(q, _) => q
    case Retiring(_, after) => AfterSubject(after)
    case Publishing(h, _) => h
    case _ => 0
  }

  function AfterSubject(after: After): Handle {
    match after
    case ToRetire(h) => h
    case ToClose(h) => h
    case ToPublish(h) => h
    case _ => 0
  }

  /** Where an activity may stand, given its subject. */
  ghost predicate Stands(x: Activity, v: View) {
    match x
    case Run(_, _, _) => Serves(v)
    case Got(_, _, _, m) => Serves(v) && Accounts(v.log.accepted, v.log.fates, [m], Waiting(v))
    case Calling(_, _, _) => Serves(v)
    case Swap(_, _) => Serves(v)
    case Releasing(_, after) => AfterOk(after, v)
    case Deleting(_, after) => AfterOk(after, v)
    case Closing(_, after) => !v.registered && Plain(after)
    case Dropping(_, after) => v.queue.Some? && v.queue.value.release && Plain(after)
    case Freeing(_, after) =>
      v.queue.Some? && v.queue.value.release && v.queue.value.messages == [] && !v.queue.value.inGlobal && Plain(after)
    case Retiring(h, after) => after == ToDone || after == ToClose(h)
    case Publishing(_, _) => v.registered ==> Serves(v)
    case _ => true
  }

  /** What is known about a handle from the activity that is about to step. */
  ghost predicate Known(v: View, q: Handle, x: Activity) {
    match v
    case View(handle, issued, _, _, _, _, _, tokens, workTokens, references, deletions, flights) =>
      && ViewOk(v) && handle == q && (issued ==> q != 0)
      && (q != 0 && SubjectOf(x) == q ==> Stands(x, v))
      && Has(x, Token, q) <= tokens && Has(x, WorkToken, q) <= workTokens
      && Has(x, Reference, q) <= references && Has(x, Deletion, q) <= deletions && Has(x, Flight, q) <= flights
      && workTokens - Has(x, WorkToken, q) <= tokens - Has(x, Token, q)
      && flights - Has(x, Flight, q) <= tokens - Has(x, Token, q)
  }

  /** What an activity must leave behind for the handle its step concerned. */
  ghost predicate Good(v: View, x: Activity) {
    match v
    case View(handle, _, _, _, _, _, _, _, _, _, _, _) => ViewOk(v) && (SubjectOf(x) == handle ==> Stands(x, v))
  }

  predicate Plain(after: After) { after.ToDone? || after.ToIdle? }

  ghost predicate Inv(s: System) {
    forall k :: Opened(k) ==>
      && s.next > 0
      && (forall h :: ViewOk(ViewOf(s, h)))
      && (forall b :: 0 <= b < |s.activities| ==> Stands(s.activities[b], ViewOf(s, SubjectOf(s.activities[b]))))
  }
}
