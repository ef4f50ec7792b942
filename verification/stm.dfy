/** The shared-memory objects of lua-stm.c: one writer replaces the copy of an
    object, readers take the current copy, and counted references decide when a
    copy is freed.  Every atomic operation is one step, under any interleaving.  The one
    writer finds `write` clear, so a compare-and-swap of it that fails without a reason
    would change nothing (`RwLock.SpuriousIsStutter`), and is left out. */
module Stm {
  import opened Basics
  import opened RwLock

  /** A copy: its reference count, and how often it was freed. */
  datatype Copy = Copy(ref: int, frees: nat)

  /** What a thread is about to do.  `last` is the copy that a reader keeps from its
      last read, `got` the one it has just fetched. */
  datatype Task =
    | Reader(last: Option<nat>)
    | ReadLock(last: Option<nat>)
    | ReadLoaded(last: Option<nat>, got: Option<nat>)
    | ReadGot(last: Option<nat>, got: Option<nat>)
    | ReadCompare(last: Option<nat>, got: Option<nat>)
    | LeaveLock(last: Option<nat>)
    | LeaveUnlock(last: Option<nat>)
    | LeaveDrop(last: Option<nat>)
    | Writer
    | GrabLock
    | GrabUnlock
    | UpdateLock(c: nat)
    | UpdateUnlock(old_: Option<nat>)
    | UpdateDrop(old_: Option<nat>)
    | ReleaseLock
    | ReleaseNull
    | ReleaseRef
    | ReleaseUnlock
    | Gone

  /** Thread 0 is the writer.  `slot` is the object's copy, `objRef` counts the
      writer and the readers of the object, and `freed` tells that the object is gone. */
  datatype System = System(lock: Lock, tasks: seq<Task>, slot: Option<nat>, copies: seq<Copy>, objRef: int,
                           freed: bool)

  /** `Fault`: a failed assertion of the program, or a use of a freed copy or object. */
  datatype Result = Stuck | Fault | Ok(s: System)

  const START := System(Lock(false, 0, [Out]), [Writer], Some(0), [Copy(1, 0)], 1, false)

  function To(s: System, i: nat, t: Task): System
    requires i < |s.tasks|
  {
    s.(tasks := s.tasks[i := t])
  }

  /** stm_releasecopy */
  function Release(copies: seq<Copy>, c: Option<nat>): seq<Copy> {
    if c.None? || c.value >= |copies| then copies
    else
      var x := copies[c.value];
      copies[c.value := Copy(x.ref - 1, if x.ref <= 1 then x.frees + 1 else x.frees)]
  }

  predicate Alive(copies: seq<Copy>, c: Option<nat>) { c.Some? ==> c.value < |copies| && copies[c.value].frees == 0 }

  /** Give up a reference, and go on as `t`. */
  function DropTo(s: System, i: nat, c: Option<nat>, t: Task): Result
    requires i < |s.tasks|
  {
    if !Alive(s.copies, c) then Fault else Ok(To(s.(copies := Release(s.copies, c)), i, t))
  }

  function LockGo(s: System, i: nat): Result
    requires i < |s.lock.phases|
  {
    if Enter(s.lock, i, false).Next? then Ok(s.(lock := Enter(s.lock, i, false).l)) else Stuck
  }

  function Unlock(s: System, i: nat, t: Task): Result
    requires i < |s.lock.phases| && i < |s.tasks|
  {
    if Leave(s.lock, i).Next? then Ok(To(s.(lock := Leave(s.lock, i).l), i, t)) else Stuck
  }

  /** Is the next step of this task one on the object: its lock, its copy, its count? */
  predicate Touches(t: Task) {
    !(t.Reader? || t.ReadCompare? || t.LeaveDrop? || t.Writer? || t.UpdateDrop? || t.Gone?)
  }

  /** The next step of thread `i`. */
  function Step(s: System, i: nat): Result
    requires i < |s.tasks| == |s.lock.phases|
  {
    if s.freed && Touches(s.tasks[i]) then Fault else Advance(s, i)
  }

  function Advance(s: System, i: nat): Result
    requires i < |s.tasks| == |s.lock.phases|
  {
    var inside := s.lock.phases[i] == ReadIn || s.lock.phases[i] == WriteIn;
    match s.tasks[i]
    case ReadLock(last) => if inside then Ok(To(s, i, ReadLoaded(last, s.slot))) else LockGo(s, i)
    case ReadLoaded(last, got) => Take(s, i, last, got)
    case ReadGot(last, got) => Unlock(s, i, ReadCompare(last, got))
    case ReadCompare(last, got) =>
      if got == last then DropTo(s, i, got, Reader(last)) else DropTo(s, i, last, Reader(got))
    case LeaveLock(last) => if inside then LeaveObject(s, i, last) else LockGo(s, i)
    case LeaveUnlock(last) => Unlock(s, i, LeaveDrop(last))
    case LeaveDrop(last) => DropTo(s, i, last, Gone)
    case GrabLock =>
      if !inside then LockGo(s, i)
      else if s.objRef <= 0 then Fault
      else Ok(To(s.(objRef := s.objRef + 1), i, GrabUnlock))
    case GrabUnlock => Granted(Unlock(s, i, Writer))
    case UpdateLock(c) => if inside then Ok(To(s.(slot := Some(c)), i, UpdateUnlock(s.slot))) else LockGo(s, i)
    case UpdateUnlock(old_) => Unlock(s, i, UpdateDrop(old_))
    case UpdateDrop(old_) => DropTo(s, i, old_, Writer)
    case ReleaseLock => if inside then DropTo(s, i, s.slot, ReleaseNull) else LockGo(s, i)
    case ReleaseNull => Ok(To(s.(slot := None), i, ReleaseRef))
    case ReleaseRef =>
      if s.objRef > 1 then Ok(To(s.(objRef := s.objRef - 1), i, ReleaseUnlock))
      else Ok(To(s.(objRef := s.objRef - 1, freed := true), i, Gone))
    case ReleaseUnlock => Unlock(s, i, Gone)
    case _ => Stuck
  }

  /** A reader counts itself in; the copy must still be there. */
  function Take(s: System, i: nat, last: Option<nat>, got: Option<nat>): Result
    requires i < |s.tasks|
  {
    if got.None? then Ok(To(s, i, ReadGot(last, got)))
    else if !Alive(s.copies, got) || s.copies[got.value].ref <= 0 then Fault
    else
      var x := s.copies[got.value];
      Ok(To(s.(copies := s.copies[got.value := Copy(x.ref + 1, x.frees)]), i, ReadGot(last, got)))
  }

  /** A reader gives up the object; the last one must find it without a copy, and frees
      it without unlocking. */
  function LeaveObject(s: System, i: nat, last: Option<nat>): Result
    requires i < |s.tasks|
  {
    if s.objRef == 1 then
      if s.slot.Some? then Fault else Ok(To(s.(objRef := 0, freed := true), i, LeaveDrop(last)))
    else Ok(To(s.(objRef := s.objRef - 1), i, LeaveUnlock(last)))
  }

  /** The object that was grabbed goes to a new reader. */
  function Granted(r: Result): Result {
    if r.Ok? then
      Ok(r.s.(tasks := r.s.tasks + [Reader(None)], lock := r.s.lock.(phases := r.s.lock.phases + [Out])))
    else r
  }

  /** Operations begin when their thread is idle. */
  datatype Op = Read(i: nat) | Leave_(i: nat) | Grab | Update | Free

  function BeginLock(s: System, i: nat, p: Phase, t: Task): (r: Result)
    requires i < |s.tasks| && i < |s.lock.phases|
    ensures r != Fault
  {
    if Begin(s.lock, i, p).Next? then Ok(To(s.(lock := Begin(s.lock, i, p).l), i, t)) else Stuck
  }

  function Start(s: System, op: Op): Result
    requires 0 < |s.tasks| == |s.lock.phases|
  {
    match op
    case Read(i) =>
      if i < |s.tasks| && s.tasks[i].Reader? then BeginLock(s, i, ReadSpin, ReadLock(s.tasks[i].last)) else Stuck
    case Leave_(i) =>
      if i < |s.tasks| && s.tasks[i].Reader? then BeginLock(s, i, ReadSpin, LeaveLock(s.tasks[i].last)) else Stuck
    case Grab => if s.tasks[0] == Writer then BeginLock(s, 0, ReadSpin, GrabLock) else Stuck
    case Update =>
      if s.tasks[0] == Writer then
        BeginLock(s.(copies := s.copies + [Copy(1, 0)]), 0, WriteSpin(false), UpdateLock(|s.copies|))
      else Stuck
    case Free =>
      if s.tasks[0] != Writer then Stuck
      else if s.freed || s.slot.None? then Fault
      else BeginLock(s, 0, WriteSpin(false), ReleaseLock)
  }

  datatype Label = Do(op: Op) | Go_(i: nat)

  function Exec(s: System, x: Label): Result {
    if |s.tasks| != |s.lock.phases| || s.tasks == [] then Stuck
    else
      match x
      case Do(op) => Start(s, op)
      case Go_(i) => if i < |s.tasks| then Step(s, i) else Stuck
  }

  function RunAll(steps: seq<Label>): Result {
    if steps == [] then Ok(START)
    else
      var before := RunAll(steps[..|steps| - 1]);
      if before.Ok? then Exec(before.s, steps[|steps| - 1]) else before
  }

  // ---------------------------------------------------------------- holders

  function Opt(c: Option<nat>): multiset<nat> { if c.Some? then multiset{c.value} else multiset{} }

  /** The references that a thread holds. */
  function Held(t: Task): multiset<nat> {
    match t
    case Reader(last) => Opt(last)
    case ReadLock(last) => Opt(last)
    case ReadLoaded(last, _) => Opt(last)
    case ReadGot(last, got) => Opt(last) + Opt(got)
    case ReadCompare(last, got) => Opt(last) + Opt(got)
    case LeaveLock(last) => Opt(last)
    case LeaveUnlock(last) => Opt(last)
    case LeaveDrop(last) => Opt(last)
    case UpdateLock(c) => multiset{c}
    case UpdateUnlock(old_) => Opt(old_)
    case UpdateDrop(old_) => Opt(old_)
    case _ => multiset{}
  }

  /** How many references to copy `c` the threads hold. */
  function HeldBy(tasks: seq<Task>, c: nat): nat {
    if tasks == [] then 0 else HeldBy(tasks[..|tasks| - 1], c) + Held(tasks[|tasks| - 1])[c]
  }

  /** Does this thread keep the object from being freed? */
  function Keeps(t: Task): nat {
    match t
    case LeaveUnlock(_) | LeaveDrop(_) | ReleaseUnlock | Gone => 0
    case GrabUnlock => 2
    case _ => 1
  }

  function KeptBy(tasks: seq<Task>): nat {
    if tasks == [] then 0 else KeptBy(tasks[..|tasks| - 1]) + Keeps(tasks[|tasks| - 1])
  }

  lemma {:induction false} HeldUpdate(tasks: seq<Task>, i: nat, t: Task, c: nat)
    requires i < |tasks|
    ensures HeldBy(tasks[i := t], c) == HeldBy(tasks, c) - Held(tasks[i])[c] + Held(t)[c]
    ensures Held(tasks[i])[c] <= HeldBy(tasks, c)
  {
    hide Held;
    var m := |tasks| - 1;
    if i == m {
      assert tasks[i := t][..m] == tasks[..m];
    } else {
      assert tasks[i := t][..m] == tasks[..m][i := t];
      HeldUpdate(tasks[..m], i, t, c);
    }
  }

  lemma {:induction false} KeptUpdate(tasks: seq<Task>, i: nat, t: Task)
    requires i < |tasks|
    ensures KeptBy(tasks[i := t]) == KeptBy(tasks) - Keeps(tasks[i]) + Keeps(t)
    ensures Keeps(tasks[i]) <= KeptBy(tasks)
  {
    hide Keeps;
    var m := |tasks| - 1;
    if i == m {
      assert tasks[i := t][..m] == tasks[..m];
    } else {
      assert tasks[i := t][..m] == tasks[..m][i := t];
      KeptUpdate(tasks[..m], i, t);
    }
  }

  lemma {:induction false} TasksAppend(tasks: seq<Task>, t: Task)
    ensures forall c :: HeldBy(tasks + [t], c) == HeldBy(tasks, c) + Held(t)[c]
    ensures KeptBy(tasks + [t]) == KeptBy(tasks) + Keeps(t)
  {
    hide Held, Keeps;
    assert (tasks + [t])[..|tasks|] == tasks;
  }

  /** Two threads keep at most what all of them keep. */
  lemma {:induction false} TwoKeep(tasks: seq<Task>, i: nat, j: nat)
    requires i < |tasks| && j < |tasks| && i != j
    ensures Keeps(tasks[i]) + Keeps(tasks[j]) <= KeptBy(tasks)
  {
    KeptUpdate(tasks, i, Gone);
    KeptUpdate(tasks[i := Gone], j, Gone);
  }

  // -------------------------------------------------------------- invariant

  predicate Reading(p: Phase) { p == ReadSpin || p == ReadReady || p == ReadCounted || p == ReadBack || p == ReadIn }

  /** Where a thread stands in the lock. */
  predicate PhaseOk(t: Task, p: Phase) {
    match t
    case ReadLock(_) | LeaveLock(_) | GrabLock => Reading(p)
    case ReadLoaded(_, _) | ReadGot(_, _) | LeaveUnlock(_) | GrabUnlock => p == ReadIn
    case UpdateLock(_) | ReleaseLock => Writing(p)
    case UpdateUnlock(_) | ReleaseNull | ReleaseRef | ReleaseUnlock => p == WriteIn
    case LeaveDrop(_) | Gone => true
    case _ => p == Out
  }

  predicate IsWriter(t: Task) {
    t.Writer? || t.GrabLock? || t.GrabUnlock? || t.UpdateLock? || t.UpdateUnlock? || t.UpdateDrop? || t.ReleaseLock?
    || t.ReleaseNull? || t.ReleaseRef? || t.ReleaseUnlock?
  }

  /** Has the writer given up the object's copy for good? */
  predicate Over(t: Task) { t.ReleaseRef? || t.ReleaseUnlock? || t.Gone? }

  predicate NotAfter(c: Option<nat>, d: Option<nat>) { c.Some? && d.Some? ==> c.value <= d.value }

  /** What a thread relies on. */
  predicate TaskOk(s: System, i: nat)
    requires i < |s.tasks| == |s.lock.phases|
  {
    var t := s.tasks[i];
    && PhaseOk(t, s.lock.phases[i]) && s.lock.phases[i] != WriteSpin(true)
    && (i != 0 ==> !Writing(s.lock.phases[i]))
    && (if i == 0 then IsWriter(t) || t.Gone? else !IsWriter(t))
    && (t.ReadLoaded? ==> t.got == s.slot && !s.tasks[0].ReleaseNull?)
    && (t.ReadLoaded? || t.ReadGot? || t.ReadCompare? ==> NotAfter(t.last, t.got))
    && (t.ReadGot? || t.ReadCompare? ==> NotAfter(t.got, s.slot))
    && (t.Reader? || t.ReadLock? ==> NotAfter(t.last, s.slot))
    && (t.UpdateLock? ==> s.slot.Some? && s.slot.value < t.c)
    && (t.UpdateUnlock? || t.UpdateDrop? ==> t.old_.Some?)
  }

  /** References to copy `c`: the object's, and those of threads. */
  function Holders(s: System, c: nat): nat {
    HeldBy(s.tasks, c) + if s.slot == Some(c) && (s.tasks == [] || !s.tasks[0].ReleaseNull?) then 1 else 0
  }

  predicate CopyOk(s: System, c: nat)
    requires c < |s.copies|
  {
    s.copies[c].ref == Holders(s, c) && s.copies[c].frees == if s.copies[c].ref == 0 then 1 else 0
  }

  ghost predicate Inv(s: System) {
    && |s.tasks| == |s.lock.phases| > 0
    && LockOk(s.lock)
    && (forall i :: 0 <= i < |s.tasks| ==> TaskOk(s, i))
    && (forall c :: 0 <= c < |s.copies| ==> CopyOk(s, c))
    && (forall c: nat :: c >= |s.copies| ==> Holders(s, c) == 0)
    && (s.slot.None? <==> Over(s.tasks[0]))
    && s.objRef == KeptBy(s.tasks)
    && CountOk(s)
  }

  /** The object is freed when nobody keeps it, and not while its writer holds the lock. */
  predicate CountOk(s: System) {
    (s.freed <==> s.objRef <= 0) && (s.tasks != [] && s.tasks[0].ReleaseUnlock? ==> s.objRef > 0)
  }

  // ----------------------------------------------------- steps keep it all

  /** A step of thread `i` that leaves the copies and the slot alone. */
  lemma {:induction false} QuietCopies(s: System, t: System, i: nat)
    requires i < |s.tasks| == |t.tasks| && t.tasks == s.tasks[i := t.tasks[i]]
    requires t.copies == s.copies && t.slot == s.slot
    requires forall c: nat :: Held(t.tasks[i])[c] == Held(s.tasks[i])[c]
    requires s.tasks[0].ReleaseNull? <==> t.tasks[0].ReleaseNull?
    ensures forall c: nat :: Holders(t, c) == Holders(s, c)
  {
    hide Held, HeldBy;
    forall c: nat ensures Holders(t, c) == Holders(s, c) { HeldUpdate(s.tasks, i, t.tasks[i], c); }
  }

  /** What the other threads rely on, when only this thread and the lock change. */
  lemma {:induction false} OthersOk(s: System, t: System, i: nat)
    requires |s.tasks| == |s.lock.phases| == |t.tasks| == |t.lock.phases| && i < |s.tasks|
    requires forall j :: 0 <= j < |s.tasks| ==> TaskOk(s, j)
    requires t.tasks == s.tasks[i := t.tasks[i]] && t.lock.phases == s.lock.phases[i := t.lock.phases[i]]
    requires t.slot == s.slot && (s.tasks[0].ReleaseNull? <==> t.tasks[0].ReleaseNull?)
    ensures forall j :: 0 <= j < |t.tasks| && j != i ==> TaskOk(t, j)
  {
    hide PhaseOk, NotAfter;
    forall j | 0 <= j < |t.tasks| && j != i ensures TaskOk(t, j) { assert TaskOk(s, j); }
  }

  /** A step that changes the lock, its own task, and perhaps the count of the object. */
  lemma {:induction false} QuietKeeps(s: System, t: System, i: nat)
    requires Inv(s) && i < |s.tasks| == |t.tasks| == |t.lock.phases|
    requires t.tasks == s.tasks[i := t.tasks[i]] && t.lock.phases == s.lock.phases[i := t.lock.phases[i]]
    requires LockOk(t.lock) && t.copies == s.copies && t.slot == s.slot
    requires forall c: nat :: Held(t.tasks[i])[c] == Held(s.tasks[i])[c]
    requires s.tasks[0].ReleaseNull? <==> t.tasks[0].ReleaseNull?
    requires Over(s.tasks[0]) <==> Over(t.tasks[0])
    requires t.objRef == s.objRef - Keeps(s.tasks[i]) + Keeps(t.tasks[i]) && CountOk(t)
    requires TaskOk(t, i)
    ensures Inv(t)
  {
    hide LockOk, Held, Keeps, Over, TaskOk, Holders, KeptBy;
    QuietCopies(s, t, i);
    OthersOk(s, t, i);
    KeptUpdate(s.tasks, i, t.tasks[i]);
    forall c | 0 <= c < |t.copies| ensures CopyOk(t, c) { assert CopyOk(s, c); }
  }

  predicate InLock(s: System, i: nat)
    requires i < |s.lock.phases|
  {
    s.lock.phases[i] == ReadIn || s.lock.phases[i] == WriteIn
  }

  /** Nobody but the writer asks to write. */
  lemma {:induction false} LoneWriter(s: System)
    requires Inv(s)
    ensures OneWriter(s.lock)
  {
    hide LockOk, Holders, KeptBy, PhaseOk;
    forall i | 0 < i < |s.lock.phases| ensures !Writing(s.lock.phases[i]) { assert TaskOk(s, i); }
  }

  lemma {:induction false} LockGoKeeps(s: System, i: nat)
    requires Inv(s) && i < |s.tasks| && LockGo(s, i).Ok?
    requires s.lock.phases[i] != ReadIn && s.lock.phases[i] != WriteIn && s.lock.phases[i] != Out
    ensures Inv(LockGo(s, i).s)
  {
    hide LockOk, Held, Keeps, Over, Holders, KeptBy;
    var t := LockGo(s, i).s;
    LoneWriter(s);
    assert TaskOk(s, i);
    StaysOk(s.lock, RwLock.Label.Go(i, false));
    if s.lock.phases[i].WriteSpin? { NotSet(s.lock, i); }
    assert t.tasks == s.tasks[i := t.tasks[i]];
    assert TaskOk(s, i);
    assert TaskOk(t, i) by { EnterPhase(s.lock, i, s.tasks[i]); }
    QuietKeeps(s, t, i);
  }

  lemma {:induction false} EnterPhase(l: Lock, i: nat, t: Task)
    requires i < |l.phases| && Enter(l, i, false).Next? && PhaseOk(t, l.phases[i])
    ensures PhaseOk(t, Enter(l, i, false).l.phases[i])
    ensures Enter(l, i, false).l.phases == l.phases[i := Enter(l, i, false).l.phases[i]]
  {
  }

  /** Nobody else is inside while the writer replaces or drops the copy. */
  lemma {:induction false} NobodyLoaded(s: System, i: nat, j: nat)
    requires Inv(s) && i < |s.tasks| && j < |s.tasks| && i != j && s.lock.phases[i] == WriteIn
    ensures s.lock.phases[j] != ReadIn && !s.tasks[j].ReadLoaded?
  {
    hide LockOk, Held, Holders, KeptBy;
    Alone(s.lock, i, j);
    assert TaskOk(s, j);
  }

  lemma {:induction false} NotDropping(s: System, i: nat)
    requires Inv(s) && i < |s.tasks| && s.lock.phases[i] == ReadIn && s.tasks[0] != Gone
    ensures !s.tasks[0].ReleaseNull? && s.lock.phases[0] != WriteIn
  {
    hide LockOk, Held, Holders, KeptBy;
    assert TaskOk(s, 0);
    if i != 0 && s.lock.phases[0] == WriteIn { NobodyLoaded(s, 0, i); }
  }

  /** Moving on inside the lock. */
  lemma {:induction false} MoveKeeps(s: System, i: nat, x: Task, objRef: int, freed: bool)
    requires Inv(s) && i < |s.tasks| && (forall c: nat :: Held(x)[c] == Held(s.tasks[i])[c])
    requires !s.tasks[i].ReleaseNull? && !x.ReleaseNull? && (i == 0 ==> (Over(s.tasks[0]) <==> Over(x)))
    requires objRef == s.objRef - Keeps(s.tasks[i]) + Keeps(x)
    requires CountOk(To(s.(objRef := objRef, freed := freed), i, x))
    requires TaskOk(To(s.(objRef := objRef, freed := freed), i, x), i)
    ensures Inv(To(s.(objRef := objRef, freed := freed), i, x))
  {
    hide LockOk, Held, Keeps, Over, TaskOk, Holders, KeptBy;
    QuietKeeps(s, To(s.(objRef := objRef, freed := freed), i, x), i);
  }

  /** Leaving the lock. */
  lemma {:induction false} UnlockKeeps(s: System, i: nat, x: Task, objRef: int)
    requires Inv(s) && i < |s.tasks| && (forall c: nat :: Held(x)[c] == Held(s.tasks[i])[c])
    requires !s.tasks[i].ReleaseNull? && !x.ReleaseNull? && (i == 0 ==> (Over(s.tasks[0]) <==> Over(x)))
    requires objRef == s.objRef - Keeps(s.tasks[i]) + Keeps(x)
    requires s.lock.phases[i] == ReadIn || s.lock.phases[i] == WriteIn
    requires CountOk(To(s.(objRef := objRef), i, x))
    requires TaskOk(To(s.(objRef := objRef, lock := Leave(s.lock, i).l), i, x), i)
    ensures Inv(To(s.(objRef := objRef, lock := Leave(s.lock, i).l), i, x))
  {
    hide LockOk, Held, Keeps, Over, TaskOk, Holders, KeptBy;
    assert TaskOk(s, i);
    StaysOk(s.lock, RwLock.Label.Unlock(i));
    QuietKeeps(s, To(s.(objRef := objRef, lock := Leave(s.lock, i).l), i, x), i);
  }

  /** Beginning an operation. */
  lemma {:induction false} BeginLockKeeps(s: System, i: nat, p: Phase, x: Task)
    requires Inv(s) && i < |s.tasks| && BeginLock(s, i, p, x).Ok?
    requires (forall c: nat :: Held(x)[c] == Held(s.tasks[i])[c]) && Keeps(x) == Keeps(s.tasks[i])
    requires !s.tasks[i].ReleaseNull? && !x.ReleaseNull? && (i == 0 ==> (Over(s.tasks[0]) <==> Over(x)))
    requires !x.ReleaseUnlock? && TaskOk(BeginLock(s, i, p, x).s, i)
    ensures Inv(BeginLock(s, i, p, x).s)
  {
    hide LockOk, Held, Keeps, Over, TaskOk, Holders, KeptBy;
    StaysOk(s.lock, RwLock.Label.Try(i, p));
    QuietKeeps(s, BeginLock(s, i, p, x).s, i);
  }

  /** A step that counts copies up or down as its task holds more or fewer of them. */
  lemma {:induction false} CountKeeps(s: System, copies: seq<Copy>, i: nat, x: Task)
    requires Inv(s) && i < |s.tasks| && |copies| == |s.copies|
    requires forall c :: 0 <= c < |copies| ==> copies[c].ref == s.copies[c].ref - Held(s.tasks[i])[c] + Held(x)[c]
    requires forall c :: 0 <= c < |copies| ==> copies[c].frees == if copies[c].ref == 0 then 1 else 0
    requires forall c: nat :: c >= |copies| ==> Held(x)[c] <= Held(s.tasks[i])[c]
    requires !s.tasks[i].ReleaseNull? && !x.ReleaseNull? && (i == 0 ==> (Over(s.tasks[0]) <==> Over(x)))
    requires !x.ReleaseUnlock? && Keeps(x) == Keeps(s.tasks[i]) && TaskOk(To(s.(copies := copies), i, x), i)
    ensures Inv(To(s.(copies := copies), i, x))
  {
    hide LockOk, Held, Keeps, Over, TaskOk, KeptBy, HeldBy;
    var t := To(s.(copies := copies), i, x);
    OthersOk(s, t, i);
    KeptUpdate(s.tasks, i, x);
    forall c: nat ensures Holders(t, c) == Holders(s, c) - Held(s.tasks[i])[c] + Held(x)[c] {
      HeldUpdate(s.tasks, i, x, c);
    }
    forall c | 0 <= c < |t.copies| ensures CopyOk(t, c) { assert CopyOk(s, c); }
    forall c: nat | c >= |t.copies| ensures Holders(t, c) == 0 { assert Holders(s, c) == 0; }
  }

  /** What a thread holds is there. */
  lemma {:induction false} HeldIsAlive(s: System, i: nat, c: nat)
    requires Inv(s) && i < |s.tasks| && Held(s.tasks[i])[c] > 0
    ensures c < |s.copies| && s.copies[c].ref >= Held(s.tasks[i])[c] && s.copies[c].frees == 0
  {
    hide LockOk, Held, Keeps, Over, TaskOk, KeptBy, HeldBy;
    HeldUpdate(s.tasks, i, Gone, c);
    assert c >= |s.copies| ==> Holders(s, c) == 0;
    assert c < |s.copies| ==> CopyOk(s, c);
  }

  lemma {:induction false} DropKeeps(s: System, i: nat, d: Option<nat>, x: Task)
    requires Inv(s) && i < |s.tasks| && (forall c: nat :: Held(s.tasks[i])[c] == Held(x)[c] + Opt(d)[c])
    requires !s.tasks[i].ReleaseNull? && !x.ReleaseNull? && (i == 0 ==> (Over(s.tasks[0]) <==> Over(x)))
    requires !x.ReleaseUnlock? && Keeps(x) == Keeps(s.tasks[i])
             && TaskOk(To(s.(copies := Release(s.copies, d)), i, x), i)
    ensures DropTo(s, i, d, x).Ok? && Inv(DropTo(s, i, d, x).s)
  {
    hide LockOk, Held, Keeps, Over, TaskOk, KeptBy, HeldBy;
    if d.Some? { HeldIsAlive(s, i, d.value); }
    var copies := Release(s.copies, d);
    forall c | 0 <= c < |copies|
      ensures copies[c].ref == s.copies[c].ref - Held(s.tasks[i])[c] + Held(x)[c]
      ensures copies[c].frees == if copies[c].ref == 0 then 1 else 0
    {
      assert CopyOk(s, c);
    }
    CountKeeps(s, copies, i, x);
  }

  lemma {:induction false} TakeCounts(s: System, i: nat, last: Option<nat>, got: Option<nat>)
    requires Inv(s) && i < |s.tasks| && s.tasks[i] == ReadLoaded(last, got) && got.Some? && TaskOk(s, i)
    requires got.value < |s.copies| && s.copies[got.value].ref > 0 && s.copies[got.value].frees == 0
    ensures Take(s, i, last, got).Ok? && Inv(Take(s, i, last, got).s)
  {
    hide LockOk, KeptBy, HeldBy;
    var copies := Take(s, i, last, got).s.copies;
    forall c | 0 <= c < |copies|
      ensures copies[c].ref == s.copies[c].ref - Held(s.tasks[i])[c] + Held(ReadGot(last, got))[c]
      ensures copies[c].frees == if copies[c].ref == 0 then 1 else 0
    {
      assert CopyOk(s, c);
    }
    CountKeeps(s, copies, i, ReadGot(last, got));
  }

  lemma {:induction false} TakeKeeps(s: System, i: nat, last: Option<nat>, got: Option<nat>)
    requires Inv(s) && i < |s.tasks| && s.tasks[i] == ReadLoaded(last, got)
    ensures Take(s, i, last, got).Ok? && Inv(Take(s, i, last, got).s)
  {
    hide LockOk, KeptBy, HeldBy;
    assert TaskOk(s, i);
    if got.None? {
      MoveKeeps(s, i, ReadGot(last, got), s.objRef, s.freed);
    } else {
      SlotIsAlive(s);
      TakeCounts(s, i, last, got);
    }
  }

  /** The object's copy is there until the writer drops it. */
  lemma {:induction false} SlotIsAlive(s: System)
    requires Inv(s) && s.slot.Some? && !s.tasks[0].ReleaseNull?
    ensures s.slot.value < |s.copies| && s.copies[s.slot.value].ref > 0 && s.copies[s.slot.value].frees == 0
  {
    hide LockOk, Held, Keeps, Over, TaskOk, KeptBy, HeldBy;
    var c := s.slot.value;
    assert c >= |s.copies| ==> Holders(s, c) == 0;
    assert c < |s.copies| ==> CopyOk(s, c);
  }

  /** Everything that thread `i` relies on. */
  lemma {:induction false} Relies(s: System, i: nat)
    requires Inv(s) && i < |s.tasks|
    ensures |s.tasks| == |s.lock.phases| && TaskOk(s, i) && TaskOk(s, 0) && LockOk(s.lock)
    ensures (s.slot.None? <==> Over(s.tasks[0])) && s.objRef == KeptBy(s.tasks) && CountOk(s)
    ensures Keeps(s.tasks[i]) <= s.objRef && (i != 0 ==> Keeps(s.tasks[i]) + Keeps(s.tasks[0]) <= s.objRef)
  {
    hide Keeps, KeptBy, LockOk, Holders;
    KeptUpdate(s.tasks, i, Gone);
    if i != 0 { TwoKeep(s.tasks, i, 0); }
  }

  /** The writer puts a new copy in its place. */
  lemma {:induction false} SwapKeeps(s: System, c: nat)
    requires Inv(s) && s.tasks[0] == UpdateLock(c) && s.lock.phases[0] == WriteIn
    ensures Inv(To(s.(slot := Some(c)), 0, UpdateUnlock(s.slot)))
  {
    hide LockOk, HeldBy, KeptBy;
    var t := To(s.(slot := Some(c)), 0, UpdateUnlock(s.slot));
    Relies(s, 0);
    KeptUpdate(s.tasks, 0, UpdateUnlock(s.slot));
    forall d: nat ensures Holders(t, d) == Holders(s, d) { HeldUpdate(s.tasks, 0, UpdateUnlock(s.slot), d); }
    forall j | 0 <= j < |t.tasks| ensures TaskOk(t, j) {
      assert TaskOk(s, j);
      if j != 0 { NobodyLoaded(s, 0, j); }
    }
    forall d | 0 <= d < |t.copies| ensures CopyOk(t, d) { assert CopyOk(s, d); }
  }

  /** The writer gives up the object's reference to its copy. */
  lemma {:induction false} LetGoKeeps(s: System)
    requires Inv(s) && s.tasks[0] == ReleaseLock && s.lock.phases[0] == WriteIn
    ensures DropTo(s, 0, s.slot, ReleaseNull).Ok? && Inv(DropTo(s, 0, s.slot, ReleaseNull).s)
  {
    hide LockOk, HeldBy, KeptBy;
    Relies(s, 0);
    SlotIsAlive(s);
    var t := DropTo(s, 0, s.slot, ReleaseNull).s;
    KeptUpdate(s.tasks, 0, ReleaseNull);
    forall d: nat ensures Holders(t, d) == Holders(s, d) - (if s.slot == Some(d) then 1 else 0) {
      HeldUpdate(s.tasks, 0, ReleaseNull, d);
    }
    forall j | 0 <= j < |t.tasks| ensures TaskOk(t, j) {
      assert TaskOk(s, j);
      if j != 0 { NobodyLoaded(s, 0, j); }
    }
    forall d | 0 <= d < |t.copies| ensures CopyOk(t, d) { assert CopyOk(s, d); }
  }

  lemma {:induction false} NullKeeps(s: System)
    requires Inv(s) && s.tasks[0] == ReleaseNull
    ensures Inv(To(s.(slot := None), 0, ReleaseRef))
  {
    hide LockOk, HeldBy, KeptBy;
    Relies(s, 0);
    var t := To(s.(slot := None), 0, ReleaseRef);
    KeptUpdate(s.tasks, 0, ReleaseRef);
    forall d: nat ensures Holders(t, d) == Holders(s, d) { HeldUpdate(s.tasks, 0, ReleaseRef, d); }
    forall j | 0 <= j < |t.tasks| ensures TaskOk(t, j) {
      assert TaskOk(s, j);
      if j != 0 { NobodyLoaded(s, 0, j); }
    }
    forall d | 0 <= d < |t.copies| ensures CopyOk(t, d) { assert CopyOk(s, d); }
  }

  /** A new reader joins; it keeps the object. */
  lemma {:induction false} JoinsKeeps(s: System)
    requires Inv(s) && !s.freed
    ensures Inv(s.(tasks := s.tasks + [Reader(None)], lock := s.lock.(phases := s.lock.phases + [Out]),
                   objRef := s.objRef + 1))
  {
    hide LockOk, HeldBy, KeptBy;
    var t := s.(tasks := s.tasks + [Reader(None)], lock := s.lock.(phases := s.lock.phases + [Out]),
                objRef := s.objRef + 1);
    TasksAppend(s.tasks, Reader(None));
    StaysOk(s.lock, RwLock.Label.Join);
    forall d: nat ensures Holders(t, d) == Holders(s, d) {}
    forall j | 0 <= j < |t.tasks| ensures TaskOk(t, j) {
      if j < |s.tasks| { assert TaskOk(s, j); }
    }
    forall d | 0 <= d < |t.copies| ensures CopyOk(t, d) { assert CopyOk(s, d); }
  }

  /** Unlocking, when the count of the object stays. */
  lemma {:induction false} UnlockStep(s: System, i: nat, x: Task)
    requires Inv(s) && i < |s.tasks| && (forall c: nat :: Held(x)[c] == Held(s.tasks[i])[c])
    requires !s.tasks[i].ReleaseNull? && !x.ReleaseNull? && (i == 0 ==> (Over(s.tasks[0]) <==> Over(x)))
    requires !x.ReleaseUnlock? && Keeps(s.tasks[i]) == Keeps(x) && InLock(s, i)
    requires TaskOk(To(s.(lock := At(s.lock, i, Out)), i, x), i)
    ensures Unlock(s, i, x).Ok? && Inv(Unlock(s, i, x).s)
  {
    hide LockOk, Held, Keeps, Over, TaskOk, Holders, KeptBy, Inv;
    Begins(s);
    Relies(s, i);
    LeavePhase(s, i, x);
    assert s.(objRef := s.objRef) == s;
    UnlockKeeps(s, i, x, s.objRef);
  }

  lemma {:induction false} LeavePhase(s: System, i: nat, x: Task)
    requires |s.tasks| == |s.lock.phases| && i < |s.tasks| && InLock(s, i)
    requires TaskOk(To(s.(lock := At(s.lock, i, Out)), i, x), i)
    ensures Leave(s.lock, i).Next? && TaskOk(To(s.(lock := Leave(s.lock, i).l), i, x), i)
  {
    hide PhaseOk, NotAfter;
  }

  lemma {:induction false} GrabKeeps(s: System)
    requires Inv(s) && s.tasks[0] == GrabUnlock
    ensures Advance(s, 0).Ok? && Inv(Advance(s, 0).s)
  {
    hide LockOk, KeptBy, HeldBy, Holders, Inv;
    Begins(s);
    Relies(s, 0);
    var t := To(s.(objRef := s.objRef - 1, lock := Leave(s.lock, 0).l), 0, Writer);
    UnlockKeeps(s, 0, Writer, s.objRef - 1);
    JoinsKeeps(t);
    assert Advance(s, 0).s == t.(tasks := t.tasks + [Reader(None)], lock := t.lock.(phases := t.lock.phases + [Out]),
                              objRef := t.objRef + 1);
  }

  lemma {:induction false} NewCopyKeeps(s: System)
    requires Inv(s) && s.tasks[0] == Writer
    ensures Start(s, Update).Ok? && Inv(Start(s, Update).s)
  {
    hide LockOk, HeldBy, KeptBy;
    Relies(s, 0);
    var n := |s.copies|;
    var t := Start(s, Update).s;
    StaysOk(s.lock, RwLock.Label.Try(0, WriteSpin(false)));
    KeptUpdate(s.tasks, 0, UpdateLock(n));
    forall d: nat ensures Holders(t, d) == Holders(s, d) + (if d == n then 1 else 0) {
      HeldUpdate(s.tasks, 0, UpdateLock(n), d);
    }
    assert Holders(s, n) == 0;
    SlotIsAlive(s);
    forall j | 0 <= j < |t.tasks| ensures TaskOk(t, j) { assert TaskOk(s, j); }
    forall d | 0 <= d < |t.copies| ensures CopyOk(t, d) { if d < n { assert CopyOk(s, d); } }
  }

  lemma {:induction false} LoadKeeps(s: System, i: nat, last: Option<nat>)
    requires Inv(s) && i < |s.tasks| && s.tasks[i] == ReadLock(last) && InLock(s, i)
    ensures Inv(To(s, i, ReadLoaded(last, s.slot)))
  {
    hide LockOk, KeptBy, HeldBy, Inv, Holders;
    Relies(s, i);
    if s.tasks[0] != Gone { NotDropping(s, i); }
    assert s.(objRef := s.objRef, freed := s.freed) == s;
    assert TaskOk(To(s, i, ReadLoaded(last, s.slot)), i);
    MoveKeeps(s, i, ReadLoaded(last, s.slot), s.objRef, s.freed);
  }

  lemma {:induction false} FetchedKeeps(s: System, i: nat, last: Option<nat>, got: Option<nat>)
    requires Inv(s) && i < |s.tasks| && s.tasks[i] == ReadGot(last, got)
    ensures Unlock(s, i, ReadCompare(last, got)).Ok? && Inv(Unlock(s, i, ReadCompare(last, got)).s)
  {
    hide LockOk, KeptBy, HeldBy, Inv, Holders, Unlock;
    Relies(s, i);
    UnlockStep(s, i, ReadCompare(last, got));
  }

  lemma {:induction false} SameCopyKeeps(s: System, i: nat, got: Option<nat>)
    requires Inv(s) && i < |s.tasks| && s.tasks[i] == ReadCompare(got, got)
    ensures DropTo(s, i, got, Reader(got)).Ok? && Inv(DropTo(s, i, got, Reader(got)).s)
  {
    hide LockOk, KeptBy, HeldBy, Inv, Holders, DropTo, Release;
    Relies(s, i);
    DropKeeps(s, i, got, Reader(got));
  }

  lemma {:induction false} NewCopyRead(s: System, i: nat, last: Option<nat>, got: Option<nat>)
    requires Inv(s) && i < |s.tasks| && s.tasks[i] == ReadCompare(last, got)
    ensures DropTo(s, i, last, Reader(got)).Ok? && Inv(DropTo(s, i, last, Reader(got)).s)
  {
    hide LockOk, KeptBy, HeldBy, Inv, Holders, DropTo, Release;
    Relies(s, i);
    DropKeeps(s, i, last, Reader(got));
  }

  lemma {:induction false} ReadStepKeeps(s: System, i: nat)
    requires Inv(s) && i < |s.tasks|
    requires s.tasks[i].ReadLoaded? || s.tasks[i].ReadGot? || s.tasks[i].ReadCompare?
             || (s.tasks[i].ReadLock? && InLock(s, i))
    ensures Advance(s, i).Ok? && Inv(Advance(s, i).s)
  {
    Begins(s);
    hide LockOk, KeptBy, HeldBy, Inv, Holders, DropTo, Unlock, Take, To, LockGo;
    match s.tasks[i]
    case ReadLock(last) => LoadKeeps(s, i, last);
    case ReadLoaded(last, got) => TakeKeeps(s, i, last, got);
    case ReadGot(last, got) => FetchedKeeps(s, i, last, got);
    case ReadCompare(last, got) => if got == last { SameCopyKeeps(s, i, got); } else { NewCopyRead(s, i, last, got); }
  }

  lemma {:induction false} LastLeaves(s: System, i: nat, last: Option<nat>)
    requires Inv(s) && i < |s.tasks| && s.tasks[i] == LeaveLock(last) && InLock(s, i) && s.objRef == 1
    ensures s.slot == None && Inv(To(s.(objRef := 0, freed := true), i, LeaveDrop(last)))
  {
    hide LockOk, KeptBy, HeldBy, Inv, Holders;
    Relies(s, i);
    if s.tasks[0] != Gone { NotDropping(s, i); }
    MoveKeeps(s, i, LeaveDrop(last), 0, true);
  }

  lemma {:induction false} OtherLeaves(s: System, i: nat, last: Option<nat>)
    requires Inv(s) && i < |s.tasks| && s.tasks[i] == LeaveLock(last) && InLock(s, i) && s.objRef != 1
    ensures Inv(To(s.(objRef := s.objRef - 1), i, LeaveUnlock(last)))
  {
    hide LockOk, KeptBy, HeldBy, Inv, Holders;
    Relies(s, i);
    if s.tasks[0] != Gone { NotDropping(s, i); }
    assert s.(objRef := s.objRef - 1, freed := s.freed) == s.(objRef := s.objRef - 1);
    MoveKeeps(s, i, LeaveUnlock(last), s.objRef - 1, s.freed);
  }

  lemma {:induction false} LeftKeeps(s: System, i: nat, last: Option<nat>)
    requires Inv(s) && i < |s.tasks| && s.tasks[i] == LeaveUnlock(last)
    ensures Unlock(s, i, LeaveDrop(last)).Ok? && Inv(Unlock(s, i, LeaveDrop(last)).s)
  {
    hide LockOk, KeptBy, HeldBy, Inv, Holders, Unlock;
    Relies(s, i);
    UnlockStep(s, i, LeaveDrop(last));
  }

  lemma {:induction false} LastDropKeeps(s: System, i: nat, last: Option<nat>)
    requires Inv(s) && i < |s.tasks| && s.tasks[i] == LeaveDrop(last)
    ensures DropTo(s, i, last, Gone).Ok? && Inv(DropTo(s, i, last, Gone).s)
  {
    hide LockOk, KeptBy, HeldBy, Inv, Holders, DropTo, Release;
    Relies(s, i);
    DropKeeps(s, i, last, Gone);
  }

  lemma {:induction false} LeaveObjectStep(s: System, i: nat)
    requires Inv(s) && i < |s.tasks| && s.tasks[i].LeaveLock? && InLock(s, i)
    ensures Advance(s, i).Ok? && Inv(Advance(s, i).s)
  {
    Begins(s);
    hide LockOk, KeptBy, HeldBy, Inv, Holders, DropTo, Unlock, Granted, To, LockGo, TaskOk, Keeps, Held;
    var last := s.tasks[i].last;
    if s.objRef == 1 { LastLeaves(s, i, last); } else { OtherLeaves(s, i, last); }
  }

  lemma {:induction false} LeaveUnlockStep(s: System, i: nat)
    requires Inv(s) && i < |s.tasks| && s.tasks[i].LeaveUnlock?
    ensures Advance(s, i).Ok? && Inv(Advance(s, i).s)
  {
    Begins(s);
    hide LockOk, KeptBy, HeldBy, Inv, Holders, DropTo, Unlock, Granted, To, LockGo, TaskOk, Keeps, Held;
    LeftKeeps(s, i, s.tasks[i].last);
  }

  lemma {:induction false} LeaveDropStep(s: System, i: nat)
    requires Inv(s) && i < |s.tasks| && s.tasks[i].LeaveDrop?
    ensures Advance(s, i).Ok? && Inv(Advance(s, i).s)
  {
    Begins(s);
    hide LockOk, KeptBy, HeldBy, Inv, Holders, DropTo, Unlock, Granted, To, LockGo, TaskOk, Keeps, Held;
    LastDropKeeps(s, i, s.tasks[i].last);
  }

  lemma {:induction false} SwappedKeeps(s: System, c: Option<nat>)
    requires Inv(s) && s.tasks[0] == UpdateUnlock(c)
    ensures Unlock(s, 0, UpdateDrop(c)).Ok? && Inv(Unlock(s, 0, UpdateDrop(c)).s)
  {
    hide LockOk, KeptBy, HeldBy, Inv, Holders, Unlock;
    Begins(s);
    Relies(s, 0);
    UnlockStep(s, 0, UpdateDrop(c));
  }

  lemma {:induction false} OldDropKeeps(s: System, c: Option<nat>)
    requires Inv(s) && s.tasks[0] == UpdateDrop(c)
    ensures DropTo(s, 0, c, Writer).Ok? && Inv(DropTo(s, 0, c, Writer).s)
  {
    hide LockOk, KeptBy, HeldBy, Inv, Holders, DropTo, Release;
    Begins(s);
    Relies(s, 0);
    DropKeeps(s, 0, c, Writer);
  }

  lemma {:induction false} GrabLockKeeps(s: System)
    requires Inv(s) && s.tasks[0] == GrabLock && InLock(s, 0)
    ensures s.objRef > 0 && Inv(To(s.(objRef := s.objRef + 1), 0, GrabUnlock))
  {
    hide LockOk, KeptBy, HeldBy, Inv, Holders;
    Begins(s);
    Relies(s, 0);
    MoveKeeps(s, 0, GrabUnlock, s.objRef + 1, s.freed);
  }

  lemma {:induction false} ReleasedKeeps(s: System)
    requires Inv(s)
    ensures s.tasks[0] == ReleaseRef ==> Advance(s, 0).Ok? && Inv(Advance(s, 0).s)
    ensures s.tasks[0] == ReleaseUnlock ==> Unlock(s, 0, Gone).Ok? && Inv(Unlock(s, 0, Gone).s)
  {
    hide LockOk, KeptBy, HeldBy, Inv, Holders, Unlock;
    Begins(s);
    Relies(s, 0);
    if s.tasks[0] == ReleaseRef {
      MoveKeeps(s, 0, if s.objRef > 1 then ReleaseUnlock else Gone, s.objRef - 1, s.objRef <= 1);
    } else if s.tasks[0] == ReleaseUnlock {
      UnlockStep(s, 0, Gone);
    }
  }

  lemma {:induction false} GrabLockStep(s: System)
    requires Inv(s) && InLock(s, 0) && s.tasks[0] == GrabLock
    ensures Advance(s, 0).Ok? && Inv(Advance(s, 0).s)
  {
    Begins(s);
    hide LockOk, KeptBy, HeldBy, Inv, Holders, DropTo, Unlock, Granted, To, LockGo, TaskOk, Keeps, Held;
    GrabLockKeeps(s);
  }

  lemma {:induction false} UpdateLockStep(s: System)
    requires Inv(s) && InLock(s, 0) && s.tasks[0].UpdateLock?
    ensures Advance(s, 0).Ok? && Inv(Advance(s, 0).s)
  {
    Begins(s);
    hide LockOk, KeptBy, HeldBy, Inv, Holders, DropTo, Unlock, Granted, To, LockGo, TaskOk, Keeps, Held;
    WriterInside(s);
    SwapKeeps(s, s.tasks[0].c);
  }

  lemma {:induction false} ReleaseLockStep(s: System)
    requires Inv(s) && InLock(s, 0) && s.tasks[0] == ReleaseLock
    ensures Advance(s, 0).Ok? && Inv(Advance(s, 0).s)
  {
    Begins(s);
    hide LockOk, KeptBy, HeldBy, Inv, Holders, DropTo, Unlock, Granted, To, LockGo, TaskOk, Keeps, Held;
    WriterInside(s);
    LetGoKeeps(s);
  }

  lemma {:induction false} UpdateUnlockStep(s: System)
    requires Inv(s) && s.tasks[0].UpdateUnlock?
    ensures Advance(s, 0).Ok? && Inv(Advance(s, 0).s)
  {
    Begins(s);
    hide LockOk, KeptBy, HeldBy, Inv, Holders, DropTo, Unlock, Granted, To, LockGo, TaskOk, Keeps, Held;
    SwappedKeeps(s, s.tasks[0].old_);
  }

  lemma {:induction false} UpdateDropStep(s: System)
    requires Inv(s) && s.tasks[0].UpdateDrop?
    ensures Advance(s, 0).Ok? && Inv(Advance(s, 0).s)
  {
    Begins(s);
    hide LockOk, KeptBy, HeldBy, Inv, Holders, DropTo, Unlock, Granted, To, LockGo, TaskOk, Keeps, Held;
    OldDropKeeps(s, s.tasks[0].old_);
  }

  lemma {:induction false} ReleaseStepKeeps(s: System)
    requires Inv(s) && (s.tasks[0].ReleaseNull? || s.tasks[0].ReleaseRef? || s.tasks[0].ReleaseUnlock?)
    ensures Advance(s, 0).Ok? && Inv(Advance(s, 0).s)
  {
    Begins(s);
    hide LockOk, KeptBy, HeldBy, Inv, Holders, DropTo, Unlock, Granted, To, LockGo;
    match s.tasks[0]
    case ReleaseNull => NullKeeps(s);
    case ReleaseRef => ReleasedKeeps(s);
    case ReleaseUnlock => ReleasedKeeps(s);
  }

  lemma {:induction false} WriterInside(s: System)
    requires Inv(s) && InLock(s, 0) && (s.tasks[0].UpdateLock? || s.tasks[0].ReleaseLock?)
    ensures s.lock.phases[0] == WriteIn
  {
    hide LockOk, KeptBy, HeldBy, Holders;
    assert TaskOk(s, 0);
  }

  lemma {:induction false} LeaveKeeps(s: System, i: nat)
    requires Inv(s) && i < |s.tasks|
    requires s.tasks[i].LeaveUnlock? || s.tasks[i].LeaveDrop? || (s.tasks[i].LeaveLock? && InLock(s, i))
    ensures Advance(s, i).Ok? && Inv(Advance(s, i).s)
  {
    Begins(s);
    hide Inv, Advance;
    if s.tasks[i].LeaveUnlock? {
      LeaveUnlockStep(s, i);
    } else if s.tasks[i].LeaveDrop? {
      LeaveDropStep(s, i);
    } else {
      LeaveObjectStep(s, i);
    }
  }

  lemma {:induction false} WriterKeeps(s: System)
    requires Inv(s) && IsWriter(s.tasks[0]) && s.tasks[0] != Writer
    requires s.tasks[0].GrabLock? || s.tasks[0].UpdateLock? || s.tasks[0].ReleaseLock? ==> InLock(s, 0)
    ensures Advance(s, 0).Ok? && Inv(Advance(s, 0).s)
  {
    Begins(s);
    hide Inv, Advance;
    match s.tasks[0]
    case GrabLock => GrabLockStep(s);
    case GrabUnlock => GrabKeeps(s);
    case UpdateLock(_) => UpdateLockStep(s);
    case UpdateUnlock(_) => UpdateUnlockStep(s);
    case UpdateDrop(_) => UpdateDropStep(s);
    case ReleaseLock => ReleaseLockStep(s);
    case _ => ReleaseStepKeeps(s);
  }

  /** Apart from the object itself being freed, no step fails an assertion or uses
      what is gone, and every step keeps the invariant. */
  lemma {:induction false} AdvanceKeeps(s: System, i: nat)
    requires Inv(s) && i < |s.tasks|
    ensures |s.tasks| == |s.lock.phases| && Advance(s, i) != Fault
    ensures Advance(s, i).Ok? ==> Inv(Advance(s, i).s)
  {
    hide LockOk, KeptBy, HeldBy, Inv, Holders;
    Relies(s, i);
    var t := s.tasks[i];
    if t.Reader? || t.Writer? || t.Gone? {
    } else if (t.ReadLock? || t.LeaveLock? || t.GrabLock? || t.UpdateLock? || t.ReleaseLock?) && !InLock(s, i) {
      if Enter(s.lock, i, false).Next? { LockGoKeeps(s, i); }
    } else if t.ReadLock? || t.ReadLoaded? || t.ReadGot? || t.ReadCompare? {
      ReadStepKeeps(s, i);
    } else if t.LeaveLock? || t.LeaveUnlock? || t.LeaveDrop? {
      LeaveKeeps(s, i);
    } else {
      WriterKeeps(s);
    }
  }

  /** Is this the step of a reader that unlocks an object which the last reader has freed? */
  predicate UnlocksFreed(s: System, x: Label) {
    s.freed && x.Go_? && x.i < |s.tasks| && s.tasks[x.i].LeaveUnlock?
  }

  /** The object is only touched after it was freed by a reader that must still unlock it. */
  lemma {:induction false} StepKeeps(s: System, i: nat)
    requires Inv(s) && i < |s.tasks|
    ensures |s.tasks| == |s.lock.phases| && (Step(s, i) == Fault <==> UnlocksFreed(s, Go_(i)))
    ensures Step(s, i).Ok? ==> Inv(Step(s, i).s)
  {
    AdvanceKeeps(s, i);
    Relies(s, i);
    hide LockOk, KeptBy, HeldBy, Inv, Holders, Advance;
  }

  lemma {:induction false} StartRead(s: System, i: nat, x: Task)
    requires Inv(s) && i < |s.tasks| && s.tasks[i].Reader?
    requires x == ReadLock(s.tasks[i].last) || x == LeaveLock(s.tasks[i].last)
    ensures BeginLock(s, i, ReadSpin, x).Ok? ==> Inv(BeginLock(s, i, ReadSpin, x).s)
  {
    hide LockOk, KeptBy, HeldBy, Inv, Holders;
    Begins(s);
    Relies(s, i);
    if BeginLock(s, i, ReadSpin, x).Ok? { BeginLockKeeps(s, i, ReadSpin, x); }
  }

  lemma {:induction false} StartWrite(s: System, p: Phase, x: Task)
    requires Inv(s) && s.tasks[0] == Writer
    requires (p == ReadSpin && x == GrabLock) || (p == WriteSpin(false) && x == ReleaseLock)
    ensures BeginLock(s, 0, p, x).Ok? ==> Inv(BeginLock(s, 0, p, x).s)
    ensures s.slot.Some? && !s.freed
  {
    hide LockOk, KeptBy, HeldBy, Inv, Holders;
    Begins(s);
    Relies(s, 0);
    if BeginLock(s, 0, p, x).Ok? { BeginLockKeeps(s, 0, p, x); }
  }

  lemma {:induction false} StartKeeps(s: System, op: Op)
    requires Inv(s)
    ensures |s.tasks| == |s.lock.phases| > 0 && Start(s, op) != Fault
    ensures Start(s, op).Ok? ==> Inv(Start(s, op).s)
  {
    Begins(s);
    hide LockOk, KeptBy, HeldBy, Inv, Holders, BeginLock;
    match op
    case Read(i) => if i < |s.tasks| && s.tasks[i].Reader? { StartRead(s, i, ReadLock(s.tasks[i].last)); }
    case Leave_(i) => if i < |s.tasks| && s.tasks[i].Reader? { StartRead(s, i, LeaveLock(s.tasks[i].last)); }
    case Grab => if s.tasks[0] == Writer { StartWrite(s, ReadSpin, GrabLock); }
    case Update => if s.tasks[0] == Writer { NewCopyKeeps(s); }
    case Free => if s.tasks[0] == Writer { StartWrite(s, WriteSpin(false), ReleaseLock); }
  }

  lemma {:induction false} Begins(s: System)
    requires Inv(s)
    ensures |s.tasks| == |s.lock.phases| > 0
  {
  }

  lemma {:induction false} StartInv()
    ensures Inv(START)
  {
    assert [Writer][..0] == [];
    assert forall c :: HeldBy([Writer], c) == 0;
    assert KeptBy([Writer]) == 1;
  }

  ghost predicate GoesWrongAt(steps: seq<Label>, k: nat)
    requires k < |steps|
  {
    RunAll(steps[..k]).Ok? && UnlocksFreed(RunAll(steps[..k]).s, steps[k])
  }

  /** Over every run: no assertion fails, no copy is used after it was freed, and the object
      is used after it was freed just when a reader unlocks it too late. */
  lemma {:induction false} RunSafe(steps: seq<Label>)
    ensures RunAll(steps) == Fault <==> exists k: nat :: k < |steps| && GoesWrongAt(steps, k)
    ensures RunAll(steps).Ok? ==> Inv(RunAll(steps).s)
  {
    hide Inv;
    if steps == [] {
      StartInv();
    } else {
      var m := |steps| - 1;
      var before := RunAll(steps[..m]);
      RunSafe(steps[..m]);
      forall k: nat | k < m ensures GoesWrongAt(steps[..m], k) <==> GoesWrongAt(steps, k) {
        assert steps[..m][..k] == steps[..k];
      }
      if before.Ok? {
        forall k: nat | k < m ensures !GoesWrongAt(steps, k) {}
        LastStep(steps, before.s, steps[m]);
      } else if before == Fault {
        var k: nat :| k < m && GoesWrongAt(steps[..m], k);
        assert GoesWrongAt(steps, k);
      } else {
        assert !GoesWrongAt(steps, m);
      }
    }
  }

  lemma {:induction false} LastStep(steps: seq<Label>, s: System, x: Label)
    requires steps != [] && x == steps[|steps| - 1] && RunAll(steps[..|steps| - 1]) == Ok(s) && Inv(s)
    ensures RunAll(steps) == Fault <==> GoesWrongAt(steps, |steps| - 1)
    ensures RunAll(steps).Ok? ==> Inv(RunAll(steps).s)
  {
    Begins(s);
    hide Inv, Step, Start;
    match x
    case Do(op) => StartKeeps(s, op);
    case Go_(i) => if i < |s.tasks| { StepKeeps(s, i); }
  }

  // ---------------------------------------------------------------- results

  /** Over every run a copy's count is the number of its holders: the object's slot,
      the writer before and after a swap, and the readers that fetched or keep it.  It is
      freed once, when the last holder goes, and not before. */
  lemma {:induction false} CountsHolders(steps: seq<Label>, c: nat)
    requires RunAll(steps).Ok? && c < |RunAll(steps).s.copies|
    ensures var s := RunAll(steps).s;
            && s.copies[c].ref == Holders(s, c)
            && s.copies[c].frees == (if Holders(s, c) == 0 then 1 else 0)
  {
    RunSafe(steps);
    assert CopyOk(RunAll(steps).s, c);
  }

  /** What a reader keeps, or has just fetched, is not freed. */
  lemma {:induction false} KeptIsThere(steps: seq<Label>, i: nat, c: nat)
    requires RunAll(steps).Ok? && i < |RunAll(steps).s.tasks| && Held(RunAll(steps).s.tasks[i])[c] > 0
    ensures c < |RunAll(steps).s.copies| && RunAll(steps).s.copies[c].frees == 0
  {
    RunSafe(steps);
    HeldIsAlive(RunAll(steps).s, i, c);
  }

  /** Once the writer and all readers are gone every copy has been freed, once, and so
      has the object. */
  lemma {:induction false} AllFreed(steps: seq<Label>, c: nat)
    requires RunAll(steps).Ok? && (forall t <- RunAll(steps).s.tasks :: t.Gone?) && c < |RunAll(steps).s.copies|
    ensures RunAll(steps).s.copies[c] == Copy(0, 1) && RunAll(steps).s.freed
  {
    CountsHolders(steps, c);
    RunSafe(steps);
    NothingHeld(RunAll(steps).s.tasks, c);
    assert RunAll(steps).s.tasks[0] in RunAll(steps).s.tasks;
  }

  lemma {:induction false} NothingHeld(tasks: seq<Task>, c: nat)
    requires forall t <- tasks :: t.Gone?
    ensures HeldBy(tasks, c) == 0 && KeptBy(tasks) == 0
  {
    if tasks != [] {
      assert tasks[|tasks| - 1] in tasks;
      NothingHeld(tasks[..|tasks| - 1], c);
    }
  }

  /** The object is freed just when nobody keeps it: its writer and every reader it was
      handed to have counted themselves off. */
  lemma {:induction false} FreedExactly(steps: seq<Label>)
    requires RunAll(steps).Ok?
    ensures RunAll(steps).s.freed <==> forall t <- RunAll(steps).s.tasks :: Keeps(t) == 0
  {
    hide Keeps, Holders, HeldBy, LockOk, TaskOk, Over;
    RunSafe(steps);
    NobodyKeeps(RunAll(steps).s.tasks);
  }

  lemma {:induction false} NobodyKeeps(tasks: seq<Task>)
    ensures KeptBy(tasks) == 0 <==> forall t <- tasks :: Keeps(t) == 0
  {
    hide Keeps;
    if tasks != [] {
      var m := |tasks| - 1;
      NobodyKeeps(tasks[..m]);
      assert tasks == tasks[..m] + [tasks[m]];
    }
  }

  /** A read never goes back: what it fetches is the copy it has, or a newer one. */
  lemma {:induction false} ReadsGoForward(steps: seq<Label>, i: nat)
    requires RunAll(steps).Ok? && i < |RunAll(steps).s.tasks| && RunAll(steps).s.tasks[i].ReadCompare?
    ensures var t := RunAll(steps).s.tasks[i]; t.last.Some? && t.got.Some? ==> t.last.value <= t.got.value
  {
    RunSafe(steps);
    assert TaskOk(RunAll(steps).s, i);
  }

  /** A reader fetches the copy that is current while it is inside, and the writer
      does not change it meanwhile. */
  lemma {:induction false} FetchesCurrent(steps: seq<Label>, i: nat)
    requires RunAll(steps).Ok? && i < |RunAll(steps).s.tasks| && RunAll(steps).s.tasks[i].ReadLoaded?
    ensures var s := RunAll(steps).s;
            && s.tasks[i].got == s.slot
            && (s.slot.Some? ==> s.slot.value < |s.copies| && s.copies[s.slot.value].frees == 0)
  {
    RunSafe(steps);
    var s := RunAll(steps).s;
    assert TaskOk(s, i);
    if s.slot.Some? { SlotIsAlive(s); }
  }

  // ------------------------------------------- the object is unlocked too late

  ghost predicate Reachable(s: System) { exists steps :: RunAll(steps) == Ok(s) }

  lemma {:induction false} OneMore(s: System, x: Label, t: System)
    requires Reachable(s) && Exec(s, x) == Ok(t)
    ensures Reachable(t)
  {
    hide Exec;
    var steps :| RunAll(steps) == Ok(s);
    assert (steps + [x])[..|steps|] == steps;
    assert RunAll(steps + [x]) == Ok(t);
  }

  /** One thread moves in the lock. */
  lemma {:induction false} MoveOn(s: System, i: nat, write: bool, read: int, p: Phase) returns (t: System)
    requires Reachable(s) && i < |s.tasks| == |s.lock.phases| && !s.freed && !InLock(s, i)
    requires s.tasks[i].LeaveLock? || s.tasks[i].GrabLock? || s.tasks[i].ReleaseLock?
    requires Enter(s.lock, i, false) == Next(Lock(write, read, s.lock.phases[i := p]))
    ensures Reachable(t) && t == s.(lock := Lock(write, read, s.lock.phases[i := p]))
  {
    t := s.(lock := Lock(write, read, s.lock.phases[i := p]));
    OneMore(s, Go_(i), t);
  }

  /** A thread that wants to read enters, while there is no writer. */
  lemma {:induction false} Enters(s: System, i: nat) returns (t: System)
    requires Reachable(s) && i < |s.tasks| == |s.lock.phases| && !s.freed && !s.lock.write
    requires s.lock.phases[i] == ReadSpin && (s.tasks[i].LeaveLock? || s.tasks[i].GrabLock?)
    ensures Reachable(t) && t == s.(lock := Lock(false, s.lock.read + 1, s.lock.phases[i := ReadIn]))
  {
    t := MoveOn(s, i, false, s.lock.read, ReadReady);
    t := MoveOn(t, i, false, s.lock.read + 1, ReadCounted);
    t := MoveOn(t, i, false, s.lock.read + 1, ReadIn);
    assert t.lock.phases == s.lock.phases[i := ReadIn];
  }

  /** The writer hands the object to one more reader. */
  lemma {:induction false} HandOut(s: System) returns (t: System)
    requires Reachable(s) && 0 < |s.tasks| == |s.lock.phases| && s.tasks[0] == Writer && s.lock.phases[0] == Out
    requires !s.lock.write && s.objRef > 0 && !s.freed
    ensures Reachable(t) && t == s.(tasks := s.tasks + [Reader(None)], objRef := s.objRef + 1,
                                    lock := s.lock.(phases := s.lock.phases + [Out]))
  {
    t := To(s.(lock := At(s.lock, 0, ReadSpin)), 0, GrabLock);
    OneMore(s, Do(Grab), t);
    t := Enters(t, 0);
    var u := To(t.(objRef := s.objRef + 1), 0, GrabUnlock);
    OneMore(t, Go_(0), u);
    t := s.(tasks := s.tasks + [Reader(None)], objRef := s.objRef + 1,
            lock := s.lock.(phases := s.lock.phases + [Out]));
    assert u.tasks[0 := Writer] == s.tasks && u.lock.phases[0 := Out] == s.lock.phases;
    OneMore(u, Go_(0), t);
  }

  /** A reader without a copy starts to leave the object. */
  lemma {:induction false} StartsToLeave(s: System, i: nat) returns (t: System)
    requires Reachable(s) && 0 < |s.tasks| == |s.lock.phases| && i < |s.tasks|
    requires s.tasks[i] == Reader(None) && s.lock.phases[i] == Out && !s.lock.write && !s.freed
    ensures Reachable(t) && t == s.(tasks := s.tasks[i := LeaveLock(None)],
                                    lock := Lock(false, s.lock.read + 1, s.lock.phases[i := ReadIn]))
  {
    t := To(s.(lock := At(s.lock, i, ReadSpin)), i, LeaveLock(None));
    OneMore(s, Do(Leave_(i)), t);
    t := Enters(t, i);
    assert t.lock.phases == s.lock.phases[i := ReadIn];
  }

  /** The writer drops its copy and goes, while readers keep the object. */
  lemma {:induction false} GivesUp(s: System) returns (t: System)
    requires Reachable(s) && 0 < |s.tasks| == |s.lock.phases| && s.tasks[0] == ReleaseLock
    requires s.lock.phases[0] == WriteIn && !s.freed && s.objRef > 1 && Alive(s.copies, s.slot)
    ensures Reachable(t) && t.tasks == s.tasks[0 := Gone] && t.slot == None && t.objRef == s.objRef - 1
    ensures t.lock == Lock(false, s.lock.read, s.lock.phases[0 := Out]) && !t.freed
  {
    hide Alive, Release, Reachable, LeaveObject, Take, Granted, LockGo;
    var a := To(s.(copies := Release(s.copies, s.slot)), 0, ReleaseNull);
    OneMore(s, Go_(0), a);
    var b := To(a.(slot := None), 0, ReleaseRef);
    OneMore(a, Go_(0), b);
    var c := To(b.(objRef := s.objRef - 1), 0, ReleaseUnlock);
    OneMore(b, Go_(0), c);
    t := To(c.(lock := Lock(false, s.lock.read, s.lock.phases[0 := Out])), 0, Gone);
    OneMore(c, Go_(0), t);
    assert t.tasks == s.tasks[0 := Gone];
  }

  /** The writer begins to go, and enters the lock. */
  lemma {:induction false} StartsToGo(s: System) returns (t: System)
    requires Reachable(s) && 0 < |s.tasks| == |s.lock.phases| && s.tasks[0] == Writer && s.lock.phases[0] == Out
    requires !s.freed && s.slot.Some? && !s.lock.write && s.lock.read == 0
    ensures Reachable(t)
    ensures t == s.(tasks := s.tasks[0 := ReleaseLock], lock := Lock(true, 0, s.lock.phases[0 := WriteIn]))
  {
    t := To(s.(lock := At(s.lock, 0, WriteSpin(false))), 0, ReleaseLock);
    OneMore(s, Do(Free), t);
    t := MoveOn(t, 0, true, 0, WriteWait);
    t := MoveOn(t, 0, true, 0, WriteIn);
    assert t.lock.phases == s.lock.phases[0 := WriteIn];
  }

  /** The writer leaves the object to two readers. */
  lemma {:induction false} LeftToTwo() returns (s: System)
    ensures Reachable(s) && s.tasks == [Gone, Reader(None), Reader(None)] && s.slot == None && s.objRef == 2
    ensures s.lock == Lock(false, 0, [Out, Out, Out]) && !s.freed
  {
    hide Reachable;
    s := HandedToTwo();
    s := StartsToGo(s);
    s := GivesUp(s);
  }

  lemma {:induction false} HandedToTwo() returns (s: System)
    ensures Reachable(s) && s.tasks == [Writer, Reader(None), Reader(None)] && s.objRef == 3 && !s.freed
    ensures s.lock == Lock(false, 0, [Out, Out, Out]) && s.slot == Some(0) && s.copies == [Copy(1, 0)]
  {
    assert RunAll([]) == Ok(START);
    hide Reachable;
    s := HandOut(START);
    s := HandOut(s);
  }

  /** Two readers leave at once: both are inside, the first counts itself off, the second
      is the last and frees the object, and then the first unlocks it. */
  lemma {:induction false} UnlockedTooLate() returns (s: System)
    ensures Reachable(s) && s.freed && |s.tasks| == |s.lock.phases| == 3
    ensures s.tasks[1] == LeaveUnlock(None) && Step(s, 1) == Fault
  {
    hide Reachable, Start;
    var a := LeftToTwo();
    a := StartsToLeave(a, 1);
    a := StartsToLeave(a, 2);
    var b := To(a.(objRef := 1), 1, LeaveUnlock(None));
    OneMore(a, Go_(1), b);
    s := To(b.(objRef := 0, freed := true), 2, LeaveDrop(None));
    OneMore(b, Go_(2), s);
  }
}
