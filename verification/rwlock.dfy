/** The reader-writer lock of two counters, with any number of threads; every
    atomic operation is one step.

    The compare-and-swap of the writer is the weak one of C11: when it fails it stores
    what it found in the local `clear`, with which the next one compares. */
module RwLock {

  /** Where a thread stands. */
  datatype Phase =
    | Out
    | ReadSpin      // before a load of `write`
    | ReadReady     // has seen `write` clear
    | ReadCounted   // has counted itself, and will look at `write` again
    | ReadBack      // has seen `write` set, and will take itself off
    | ReadIn
    | WriteSpin(clear: bool)  // before a compare-and-swap of `write`
    | WriteWait     // has set `write`, and waits for the readers
    | WriteIn

  datatype Lock = Lock(write: bool, read: int, phases: seq<Phase>)

  datatype Outcome = Blocked | Next(l: Lock)

  predicate Writing(p: Phase) { p.WriteSpin? || p == WriteWait || p == WriteIn }

  function At(l: Lock, i: nat, p: Phase): Lock
    requires i < |l.phases|
  {
    l.(phases := l.phases[i := p])
  }

  /** atomic_compare_exchange_weak: it may fail without a reason. */
  function CompareAndSwap(l: Lock, i: nat, clear: bool, spurious: bool): Lock
    requires i < |l.phases|
  {
    if l.write == clear && !spurious then At(l.(write := true), i, WriteWait) else At(l, i, WriteSpin(l.write))
  }

  /** The next step on the way into the lock; a spinning thread that finds its
      condition false is blocked. */
  function Enter(l: Lock, i: nat, spurious: bool): Outcome
    requires i < |l.phases|
  {
    match l.phases[i]
    case ReadSpin => if l.write then Blocked else Next(At(l, i, ReadReady))
    case ReadReady => Next(At(l.(read := l.read + 1), i, ReadCounted))
    case ReadCounted => Next(At(l, i, if l.write then ReadBack else ReadIn))
    case ReadBack => Next(At(l.(read := l.read - 1), i, ReadSpin))
    case WriteSpin(clear) => Next(CompareAndSwap(l, i, clear, spurious))
    case WriteWait => if l.read != 0 then Blocked else Next(At(l, i, WriteIn))
    case _ => Blocked
  }

  /** runlock and wunlock. */
  function Leave(l: Lock, i: nat): Outcome
    requires i < |l.phases|
  {
    match l.phases[i]
    case ReadIn => Next(At(l.(read := l.read - 1), i, Out))
    case WriteIn => Next(At(l.(write := false), i, Out))
    case _ => Blocked
  }

  function Begin(l: Lock, i: nat, p: Phase): Outcome
    requires i < |l.phases|
  {
    if l.phases[i] == Out && (p == ReadSpin || p == WriteSpin(false)) then Next(At(l, i, p)) else Blocked
  }

  /** A failure without a reason changes nothing, or what a failure with a reason changes. */
  lemma {:induction false} SpuriousIsStutter(l: Lock, i: nat)
    requires i < |l.phases| && l.phases[i].WriteSpin?
    ensures Enter(l, i, true) == if l.write == l.phases[i].clear then Next(l) else Enter(l, i, false)
  {
    assert l.phases[i := l.phases[i]] == l.phases;
  }

  // ------------------------------------------------------------------- runs

  datatype Label = Join | Try(i: nat, p: Phase) | Go(i: nat, spurious: bool) | Unlock(i: nat)

  function Exec(l: Lock, x: Label): Outcome {
    match x
    case Join => Next(l.(phases := l.phases + [Out]))
    case Try(i, p) => if i < |l.phases| then Begin(l, i, p) else Blocked
    case Go(i, spurious) => if i < |l.phases| then Enter(l, i, spurious) else Blocked
    case Unlock(i) => if i < |l.phases| then Leave(l, i) else Blocked
  }

  function RunFrom(l: Lock, steps: seq<Label>): Outcome {
    if steps == [] then Next(l)
    else
      var before := RunFrom(l, steps[..|steps| - 1]);
      if before.Next? then Exec(before.l, steps[|steps| - 1]) else before
  }

  const START := Lock(false, 0, [])

  function RunAll(steps: seq<Label>): Outcome { RunFrom(START, steps) }

  /** Can the one state become the other? */
  ghost predicate Leads(l: Lock, t: Lock) { exists steps :: RunFrom(l, steps) == Next(t) }

  ghost predicate Reachable(l: Lock) { Leads(START, l) }

  lemma {:induction false} Here(l: Lock)
    ensures Leads(l, l)
  {
    assert RunFrom(l, []) == Next(l);
  }

  lemma {:induction false} OneMore(l: Lock, s: Lock, x: Label, t: Lock)
    requires Leads(l, s) && Exec(s, x) == Next(t)
    ensures Leads(l, t)
  {
    hide Exec;
    var steps :| RunFrom(l, steps) == Next(s);
    assert (steps + [x])[..|steps|] == steps;
    assert RunFrom(l, steps + [x]) == Next(t);
  }

  // --------------------------------------------------------------- counting

  /** The counters count, at most one writer has set `write`, be it inside or still waiting
      for the readers, and no reader is beside a writer inside.  This is more than that nobody
      is beside a writer inside: a second writer past the compare-and-swap breaks it even
      while the first one waits.  `TwoWritersFollow` says how the two then come to be inside. */
  ghost predicate LockOk(l: Lock) {
    var n := multiset(l.phases);
    && Counted(l)
    && (if l.write then 1 else 0) == n[WriteWait] + n[WriteIn]
    && (n[WriteIn] > 0 ==> n[ReadIn] == 0)
  }

  /** What holds in any case: the readers are counted, and `write` is set by somebody who
      has not left. */
  ghost predicate Counted(l: Lock) {
    var n := multiset(l.phases);
    && l.read == n[ReadCounted] + n[ReadBack] + n[ReadIn]
    && (l.write ==> n[WriteWait] + n[WriteIn] > 0)
  }

  function One(b: bool): nat { if b then 1 else 0 }

  lemma {:induction false} Moved(phases: seq<Phase>, i: nat, p: Phase, q: Phase)
    requires i < |phases|
    ensures multiset(phases[i := p])[q] == multiset(phases)[q] - One(phases[i] == q) + One(p == q)
    ensures multiset(phases)[q] >= One(phases[i] == q)
  {
    assert phases[i] in multiset(phases);
    assert multiset(phases[i := p]) == multiset(phases) - multiset{phases[i]} + multiset{p};
  }

  /** How the counts change when one thread moves. */
  lemma {:induction false} AllMoved(phases: seq<Phase>, i: nat, p: Phase)
    requires i < |phases|
    ensures var n, m, q := multiset(phases), multiset(phases[i := p]), phases[i];
            && m[ReadCounted] == n[ReadCounted] - One(q == ReadCounted) + One(p == ReadCounted)
            && m[ReadBack] == n[ReadBack] - One(q == ReadBack) + One(p == ReadBack)
            && m[ReadIn] == n[ReadIn] - One(q == ReadIn) + One(p == ReadIn)
            && m[WriteWait] == n[WriteWait] - One(q == WriteWait) + One(p == WriteWait)
            && m[WriteIn] == n[WriteIn] - One(q == WriteIn) + One(p == WriteIn)
            && n[q] >= 1
  {
    Moved(phases, i, p, ReadCounted);
    Moved(phases, i, p, ReadBack);
    Moved(phases, i, p, ReadIn);
    Moved(phases, i, p, WriteWait);
    Moved(phases, i, p, WriteIn);
    Moved(phases, i, p, phases[i]);
  }

  /** Does this step let a writer past `write` although another one has set it?  It does when
      the writer's last compare-and-swap has left `clear` set. */
  predicate AdmitsSecond(l: Lock, x: Label) {
    x.Go? && !x.spurious && x.i < |l.phases| && l.phases[x.i] == WriteSpin(true) && l.write
  }

  /** Every step keeps the readers counted; it keeps `LockOk`, with its single writer past the
      compare-and-swap, exactly when it does not admit a second one. */
  lemma {:induction false} StepExactly(l: Lock, x: Label)
    requires Counted(l) && Exec(l, x).Next?
    ensures Counted(Exec(l, x).l)
    ensures LockOk(l) ==> (LockOk(Exec(l, x).l) <==> !AdmitsSecond(l, x))
  {
    hide Counted, LockOk;
    match x
    case Join => JoinKeeps(l);
    case Try(i, p) => MoveExactly(l, i, Begin(l, i, p).l, x);
    case Go(i, spurious) =>
      if l.phases[i].WriteSpin? { SwapExactly(l, i, spurious); } else { MoveExactly(l, i, Enter(l, i, spurious).l, x); }
    case Unlock(i) => MoveExactly(l, i, Leave(l, i).l, x);
  }

  lemma {:induction false} StaysOk(l: Lock, x: Label)
    requires LockOk(l) && Exec(l, x).Next? && !AdmitsSecond(l, x)
    ensures LockOk(Exec(l, x).l)
  {
    assert Counted(l);
    hide LockOk, Exec;
    StepExactly(l, x);
  }

  lemma {:induction false} JoinKeeps(l: Lock)
    requires Counted(l)
    ensures Counted(l.(phases := l.phases + [Out]))
    ensures LockOk(l) <==> LockOk(l.(phases := l.phases + [Out]))
  {
  }

  /** A step that is no compare-and-swap. */
  lemma {:induction false} MoveExactly(l: Lock, i: nat, t: Lock, x: Label)
    requires Counted(l) && i < |l.phases| && Exec(l, x) == Next(t) && !x.Join? && x.i == i
    requires x.Go? ==> !l.phases[i].WriteSpin?
    ensures Counted(t) && (LockOk(l) ==> LockOk(t))
  {
    match x
    case Try(_, p) => BeginKeeps(l, i, p);
    case Go(_, spurious) => if Writing(l.phases[i]) { WaitKeeps(l, i); } else { ReadKeeps(l, i); }
    case Unlock(_) => LeaveKeeps(l, i);
  }

  lemma {:induction false} BeginKeeps(l: Lock, i: nat, p: Phase)
    requires Counted(l) && i < |l.phases| && Begin(l, i, p).Next?
    ensures Counted(Begin(l, i, p).l) && (LockOk(l) ==> LockOk(Begin(l, i, p).l))
  {
    AllMoved(l.phases, i, p);
  }

  lemma {:induction false} WaitKeeps(l: Lock, i: nat)
    requires Counted(l) && i < |l.phases| && l.phases[i] == WriteWait && Enter(l, i, false).Next?
    ensures Counted(Enter(l, i, false).l) && (LockOk(l) ==> LockOk(Enter(l, i, false).l))
  {
    AllMoved(l.phases, i, WriteIn);
  }

  lemma {:induction false} ReadKeeps(l: Lock, i: nat)
    requires Counted(l) && i < |l.phases| && !Writing(l.phases[i]) && Enter(l, i, false).Next?
    ensures Counted(Enter(l, i, false).l) && (LockOk(l) ==> LockOk(Enter(l, i, false).l))
  {
    AllMoved(l.phases, i, Enter(l, i, false).l.phases[i]);
  }

  lemma {:induction false} LeaveKeeps(l: Lock, i: nat)
    requires Counted(l) && i < |l.phases| && Leave(l, i).Next?
    ensures Counted(Leave(l, i).l) && (LockOk(l) ==> LockOk(Leave(l, i).l))
  {
    AllMoved(l.phases, i, Out);
  }

  lemma {:induction false} SwapExactly(l: Lock, i: nat, spurious: bool)
    requires Counted(l) && i < |l.phases| && l.phases[i].WriteSpin?
    ensures Counted(Enter(l, i, spurious).l)
    ensures LockOk(l) ==> (LockOk(Enter(l, i, spurious).l) <==> !AdmitsSecond(l, Go(i, spurious)))
  {
    AllMoved(l.phases, i, Enter(l, i, spurious).l.phases[i]);
  }

  /** While exclusion holds, a writer inside is the only thread inside. */
  lemma {:induction false} Alone(l: Lock, i: nat, j: nat)
    requires LockOk(l) && i < |l.phases| && j < |l.phases| && i != j && l.phases[i] == WriteIn
    ensures l.phases[j] != WriteIn && l.phases[j] != ReadIn
  {
    assert l.phases[i] in multiset(l.phases) && l.phases[j] in multiset(l.phases);
    if l.phases[j] == WriteIn { TwoThere(l.phases, if i < j then i else j, if i < j then j else i, WriteIn); }
  }

  lemma {:induction false} TwoThere(phases: seq<Phase>, i: nat, j: nat, p: Phase)
    requires i < j < |phases| && phases[i] == phases[j] == p
    ensures multiset(phases)[p] >= 2
  {
    assert phases == phases[..j] + phases[j..];
    assert phases[..j][i] == p && phases[j..][0] == p;
    assert multiset(phases) == multiset(phases[..j]) + multiset(phases[j..]);
  }

  // ---------------------------------------------------------------- results

  lemma {:induction false} FromCounted(l: Lock, steps: seq<Label>)
    requires Counted(l) && RunFrom(l, steps).Next?
    ensures Counted(RunFrom(l, steps).l)
  {
    hide Counted;
    if steps != [] {
      var m := |steps| - 1;
      FromCounted(l, steps[..m]);
      StepExactly(RunFrom(l, steps[..m]).l, steps[m]);
    }
  }

  /** Does step `k` of a run admit a second writer? */
  ghost predicate AdmittedAt(steps: seq<Label>, k: nat)
    requires k < |steps|
  {
    RunAll(steps[..k]).Next? && AdmitsSecond(RunAll(steps[..k]).l, steps[k])
  }

  /** Is there at most one writer past the compare-and-swap, and nobody beside a writer
      inside, all along a run? */
  ghost predicate ExclusiveAllAlong(steps: seq<Label>) {
    forall k :: 0 <= k <= |steps| ==> RunAll(steps[..k]).Next? && LockOk(RunAll(steps[..k]).l)
  }

  ghost predicate NoneAdmitted(steps: seq<Label>) { forall k: nat :: k < |steps| ==> !AdmittedAt(steps, k) }

  /** Over every run: there is at most one writer that has set `write`, inside or waiting, and
      nobody beside a writer inside, exactly when no compare-and-swap admits a second writer.
      A run that admits one need not have two threads inside; see `TwoWritersFollow`. */
  lemma {:induction false} ExclusionExactly(steps: seq<Label>)
    requires RunAll(steps).Next?
    ensures ExclusiveAllAlong(steps) <==> NoneAdmitted(steps)
  {
    assert Counted(START);
    hide LockOk, Counted, NoneAdmitted, ExclusiveAllAlong, AdmitsSecond, AdmittedAt, Exec;
    if steps == [] {
      StartAlone();
    } else {
      var m := |steps| - 1;
      ExclusionExactly(steps[..m]);
      FromCounted(START, steps[..m]);
      StepExactly(RunAll(steps[..m]).l, steps[m]);
      Prefixes(steps);
    }
  }

  lemma {:induction false} StartAlone()
    ensures ExclusiveAllAlong([]) && NoneAdmitted([])
  {
    var none: seq<Label> := [];
    assert none[..0] == none;
  }

  lemma {:induction false} Prefixes(steps: seq<Label>)
    requires steps != [] && RunAll(steps).Next?
    ensures var m := |steps| - 1;
            var less := steps[..m];
            && RunAll(less).Next?
            && (ExclusiveAllAlong(steps) <==> ExclusiveAllAlong(less) && LockOk(RunAll(steps).l))
            && (ExclusiveAllAlong(less) ==> LockOk(RunAll(less).l))
            && (NoneAdmitted(steps) <==> NoneAdmitted(less) && !AdmitsSecond(RunAll(less).l, steps[m]))
  {
    assert RunAll(steps[..|steps| - 1]).Next?;
    assert steps[..|steps|] == steps;
    hide LockOk, RunFrom, RunAll, AdmitsSecond, NoneAdmitted, ExclusiveAllAlong;
    AllSmaller(steps);
    AllBefore(steps);
  }

  lemma {:induction false} AllBefore(steps: seq<Label>)
    requires steps != [] && RunAll(steps).Next?
    ensures var m := |steps| - 1;
            && (ExclusiveAllAlong(steps) <==> ExclusiveAllAlong(steps[..m]) && LockOk(RunAll(steps).l))
            && (ExclusiveAllAlong(steps[..m]) ==> RunAll(steps[..m]).Next? && LockOk(RunAll(steps[..m]).l))
  {
    hide LockOk, RunFrom, RunAll;
    var m := |steps| - 1;
    var less := steps[..m];
    assert less[..m] == less && steps[..|steps|] == steps;
    assert forall k :: 0 <= k <= m ==> less[..k] == steps[..k];
  }

  lemma {:induction false} AllSmaller(steps: seq<Label>)
    requires steps != []
    ensures var m := |steps| - 1;
            NoneAdmitted(steps) <==> NoneAdmitted(steps[..m]) && !AdmittedAt(steps, m)
  {
    hide AdmitsSecond, RunFrom;
    var m := |steps| - 1;
    var less := steps[..m];
    forall k: nat | k < m ensures AdmittedAt(less, k) <==> AdmittedAt(steps, k) { assert less[..k] == steps[..k]; }
    hide AdmittedAt;
    if NoneAdmitted(steps) {
      forall k: nat | k < m ensures !AdmittedAt(less, k) { assert !AdmittedAt(steps, k); }
    } else {
      var k: nat :| k < |steps| && AdmittedAt(steps, k);
      assert k < m ==> AdmittedAt(less, k);
    }
  }

  // ------------------------------------------------- what a writer has found

  predicate By(x: Label, i: nat) { !x.Join? && x.i == i }

  /** Was step `k` a compare-and-swap of thread `i` that found `write` set, and its last step? */
  ghost predicate FoundAt(steps: seq<Label>, i: nat, k: nat)
    requires k < |steps|
  {
    && RunAll(steps[..k]).Next? && i < |RunAll(steps[..k]).l.phases| && RunAll(steps[..k]).l.phases[i].WriteSpin?
    && RunAll(steps[..k]).l.write && steps[k].Go? && steps[k].i == i
    && forall j :: k < j < |steps| ==> !By(steps[j], i)
  }

  ghost predicate FoundSet(steps: seq<Label>, i: nat) { exists k: nat :: k < |steps| && FoundAt(steps, i, k) }

  /** `clear` is set exactly when the writer's last compare-and-swap found `write` set. */
  lemma {:induction false} ClearIsFound(steps: seq<Label>, i: nat)
    requires RunAll(steps).Next? && i < |RunAll(steps).l.phases| && RunAll(steps).l.phases[i].WriteSpin?
    ensures RunAll(steps).l.phases[i].clear <==> FoundSet(steps, i)
  {
    var m := |steps| - 1;
    var l, x := RunAll(steps[..m]).l, steps[m];
    if By(x, i) {
      LastStep(steps, i);
    } else {
      assert i < |l.phases| && l.phases[i] == RunAll(steps).l.phases[i];
      ClearIsFound(steps[..m], i);
      hide RunAll, RunFrom;
      forall k: nat | k < m ensures FoundAt(steps[..m], i, k) <==> FoundAt(steps, i, k) {
        assert steps[..m][..k] == steps[..k];
        assert forall j :: k < j < m ==> steps[..m][j] == steps[j];
      }
      assert !FoundAt(steps, i, m);
    }
  }

  lemma {:induction false} LastStep(steps: seq<Label>, i: nat)
    requires steps != [] && RunAll(steps).Next? && By(steps[|steps| - 1], i)
    requires i < |RunAll(steps).l.phases| && RunAll(steps).l.phases[i].WriteSpin?
    ensures RunAll(steps).l.phases[i].clear <==> FoundSet(steps, i)
  {
    var m := |steps| - 1;
    var l := RunAll(steps[..m]).l;
    assert RunAll(steps[..m]).Next?;
    assert RunAll(steps).l.phases[i].clear <==> l.phases[i].WriteSpin? && l.write && steps[m].Go?;
    hide RunAll, RunFrom;
    forall k: nat | k < m ensures !FoundAt(steps, i, k) { assert By(steps[m], i); }
    if steps[m].Go? && l.phases[i].WriteSpin? && l.write { assert FoundAt(steps, i, m); }
  }

  /** A compare-and-swap admits a second writer exactly when `write` is set, and the one
      before it, of the same call, has found it set. */
  lemma {:induction false} AdmitsExactly(steps: seq<Label>, i: nat)
    requires RunAll(steps).Next? && i < |RunAll(steps).l.phases| && RunAll(steps).l.phases[i].WriteSpin?
    ensures AdmitsSecond(RunAll(steps).l, Go(i, false)) <==> RunAll(steps).l.write && FoundSet(steps, i)
  {
    ClearIsFound(steps, i);
    hide RunAll, FoundSet;
  }

  // ---------------------------------------------------- one writer at a time

  ghost predicate OneWriter(l: Lock) {
    forall i, j :: 0 <= i < |l.phases| && 0 <= j < |l.phases| && Writing(l.phases[i]) && Writing(l.phases[j]) ==> i == j
  }

  /** Exclusion holds, and no compare-and-swap has found `write` set. */
  ghost predicate Quiet(l: Lock) { LockOk(l) && WriteSpin(true) !in l.phases }

  lemma {:induction false} QuietKeeps(l: Lock, x: Label)
    requires Quiet(l) && OneWriter(l) && Exec(l, x).Next?
    ensures Quiet(Exec(l, x).l)
  {
    StepExactly(l, x);
    var t := Exec(l, x).l;
    if x.Go? && l.phases[x.i].WriteSpin? {
      NotSet(l, x.i);
    }
    hide LockOk;
    forall j | 0 <= j < |t.phases| ensures t.phases[j] != WriteSpin(true) {
      assert j < |l.phases| && (x.Join? || x.i != j) ==> t.phases[j] == l.phases[j];
    }
  }

  /** A lone writer that has not set `write` yet finds it clear. */
  lemma {:induction false} NotSet(l: Lock, i: nat)
    requires LockOk(l) && OneWriter(l) && i < |l.phases| && l.phases[i].WriteSpin?
    ensures !l.write
  {
    if l.write {
      var p := if multiset(l.phases)[WriteIn] > 0 then WriteIn else WriteWait;
      assert p in multiset(l.phases);
      var j :| 0 <= j < |l.phases| && l.phases[j] == p;
      assert false;
    }
  }

  /** Is there at most one thread at a time that writes, or is on its way to? */
  ghost predicate OneWriterAllAlong(steps: seq<Label>) {
    forall k :: 0 <= k < |steps| && RunAll(steps[..k]).Next? ==> OneWriter(RunAll(steps[..k]).l)
  }

  lemma {:induction false} QuietAllAlong(steps: seq<Label>)
    requires RunAll(steps).Next? && OneWriterAllAlong(steps)
    ensures Quiet(RunAll(steps).l)
  {
    if steps == [] {
    } else {
      var m := |steps| - 1;
      assert RunAll(steps[..m]).Next? && OneWriter(RunAll(steps[..m]).l);
      forall k | 0 <= k < m ensures steps[..m][..k] == steps[..k] {}
      QuietAllAlong(steps[..m]);
      hide Quiet, OneWriter;
      QuietKeeps(RunAll(steps[..m]).l, steps[m]);
    }
  }

  /** As long as there is at most one thread at a time that writes or is on its way to,
      a writer inside is the only thread inside. */
  lemma {:induction false} WriterIsAlone(steps: seq<Label>, i: nat, j: nat)
    requires RunAll(steps).Next? && OneWriterAllAlong(steps)
    requires i < |RunAll(steps).l.phases| && j < |RunAll(steps).l.phases| && i != j
    requires RunAll(steps).l.phases[i] == WriteIn
    ensures RunAll(steps).l.phases[j] != WriteIn && RunAll(steps).l.phases[j] != ReadIn
  {
    QuietAllAlong(steps);
    Alone(RunAll(steps).l, i, j);
  }

  // ------------------------------------------------------- two writers inside

  lemma {:induction false} ReachableCounted(l: Lock)
    requires Reachable(l)
    ensures Counted(l)
  {
    var steps :| RunFrom(START, steps) == Next(l);
    FromCounted(START, steps);
  }

  /** How far the readers are from being counted off. */
  function Load(l: Lock): nat {
    var n := multiset(l.phases);
    2 * n[ReadCounted] + n[ReadBack] + n[ReadIn]
  }

  /** The readers leave, and find `write` set on their way in; the writers stay. */
  lemma {:induction false} Drain(l: Lock, s: Lock, i: nat, j: nat) returns (t: Lock)
    requires Leads(l, s) && Counted(s) && s.write && i < |s.phases| && j < |s.phases|
    requires s.phases[i] == WriteWait || s.phases[i] == WriteIn
    requires s.phases[j] == WriteWait || s.phases[j] == WriteIn
    ensures Leads(l, t) && Counted(t) && t.write && t.read == 0 && |t.phases| == |s.phases|
    ensures t.phases[i] == s.phases[i] && t.phases[j] == s.phases[j]
    decreases Load(s)
  {
    if s.read == 0 { return s; }
    var k, x := OneReader(s);
    var u := Exec(s, x).l;
    OneMore(l, s, x, u);
    t := Drain(l, u, i, j);
  }

  lemma {:induction false} OneReader(s: Lock) returns (k: nat, x: Label)
    requires Counted(s) && s.write && s.read != 0
    ensures k < |s.phases| && (s.phases[k] == ReadCounted || s.phases[k] == ReadBack || s.phases[k] == ReadIn)
    ensures Exec(s, x).Next? && Counted(Exec(s, x).l) && Load(Exec(s, x).l) < Load(s)
    ensures var u := Exec(s, x).l;
            && u.write && |u.phases| == |s.phases|
            && forall j :: 0 <= j < |s.phases| && j != k ==> u.phases[j] == s.phases[j]
  {
    var n := multiset(s.phases);
    var p := if n[ReadCounted] > 0 then ReadCounted else if n[ReadBack] > 0 then ReadBack else ReadIn;
    assert p in n;
    k :| 0 <= k < |s.phases| && s.phases[k] == p;
    x := if p == ReadIn then Unlock(k) else Go(k, false);
    StepExactly(s, x);
    hide Counted, LockOk, Load;
    ReaderOff(s, k, x);
  }

  lemma {:induction false} ReaderOff(s: Lock, k: nat, x: Label)
    requires s.write && k < |s.phases| && Exec(s, x).Next?
    requires (x == Unlock(k) && s.phases[k] == ReadIn)
             || (x == Go(k, false) && (s.phases[k] == ReadCounted || s.phases[k] == ReadBack))
    ensures Load(Exec(s, x).l) < Load(s) && Exec(s, x).l.write
  {
    AllMoved(s.phases, k, Exec(s, x).l.phases[k]);
  }

  /** A thread that waits to be alone enters when no reader is counted. */
  lemma {:induction false} GoesIn(l: Lock, s: Lock, i: nat) returns (t: Lock)
    requires Leads(l, s) && i < |s.phases| && s.read == 0 && (s.phases[i] == WriteWait || s.phases[i] == WriteIn)
    ensures Leads(l, t) && t == At(s, i, WriteIn)
  {
    t := At(s, i, WriteIn);
    if s.phases[i] == WriteIn {
      assert t.phases == s.phases;
    } else {
      OneMore(l, s, Go(i, false), t);
    }
  }

  /** A writer spins while another one has set `write`: its next two compare-and-swaps let
      it past. */
  lemma {:induction false} SpinsTwice(l: Lock, s: Lock, i: nat) returns (t: Lock)
    requires Leads(l, s) && i < |s.phases| && s.phases[i].WriteSpin? && s.write
    ensures Leads(l, t) && t == At(s, i, WriteWait)
  {
    var u := s;
    if !s.phases[i].clear {
      u := At(s, i, WriteSpin(true));
      OneMore(l, s, Go(i, false), u);
    }
    t := At(s, i, WriteWait);
    assert t.phases == u.phases[i := WriteWait];
    OneMore(l, u, Go(i, false), t);
  }

  /** From any reachable state in which one thread has set `write` and another one spins for
      it, both can come to be inside. */
  lemma {:induction false} TwoWritersFollow(l: Lock, i: nat) returns (t: Lock, j: nat)
    requires Reachable(l) && l.write && i < |l.phases| && l.phases[i].WriteSpin?
    ensures Leads(l, t) && i < |t.phases| && j < |t.phases| && i != j && t.phases[i] == t.phases[j] == WriteIn
  {
    ReachableCounted(l);
    j := Setter(l);
    Here(l);
    t := SpinsTwice(l, l, i);
    var s := t;
    assert Counted(s) by { StillCounted(l, i); }
    t := Drain(l, s, i, j);
    t := GoesIn(l, t, i);
    t := GoesIn(l, t, j);
  }

  lemma {:induction false} Setter(l: Lock) returns (j: nat)
    requires Counted(l) && l.write
    ensures j < |l.phases| && (l.phases[j] == WriteWait || l.phases[j] == WriteIn)
  {
    var p := if multiset(l.phases)[WriteIn] > 0 then WriteIn else WriteWait;
    assert p in multiset(l.phases);
    j :| 0 <= j < |l.phases| && l.phases[j] == p;
  }

  lemma {:induction false} StillCounted(l: Lock, i: nat)
    requires Counted(l) && i < |l.phases| && l.phases[i].WriteSpin?
    ensures Counted(At(l, i, WriteWait))
  {
    AllMoved(l.phases, i, WriteWait);
  }

  /** Such a state can be reached: two writers are inside. */
  lemma {:induction false} TwoWriters() returns (t: Lock, i: nat, j: nat)
    ensures Reachable(t) && i < |t.phases| && j < |t.phases| && i != j && t.phases[i] == t.phases[j] == WriteIn
  {
    Here(START);
    var a := Lock(false, 0, [Out]);
    OneMore(START, START, Join, a);
    var b := Lock(false, 0, [Out, Out]);
    OneMore(START, a, Join, b);
    var c := Lock(false, 0, [WriteSpin(false), Out]);
    OneMore(START, b, Try(0, WriteSpin(false)), c);
    var d := Lock(true, 0, [WriteWait, Out]);
    OneMore(START, c, Go(0, false), d);
    var e := Lock(true, 0, [WriteWait, WriteSpin(false)]);
    OneMore(START, d, Try(1, WriteSpin(false)), e);
    var f := SpinsTwice(START, e, 1);
    f := GoesIn(START, f, 0);
    t := GoesIn(START, f, 1);
    i, j := 0, 1;
  }

  /** From a state with two writers inside: when one of them leaves, a reader can enter
      beside the other. */
  lemma {:induction false} ReaderFollows(l: Lock, i: nat, j: nat) returns (t: Lock)
    requires i < |l.phases| && j < |l.phases| && i != j && l.phases[i] == l.phases[j] == WriteIn
    ensures Leads(l, t) && |t.phases| == |l.phases| && t.phases[i] == WriteIn && t.phases[j] == ReadIn
  {
    Here(l);
    var s := At(l.(write := false), j, Out);
    OneMore(l, l, Unlock(j), s);
    var u := At(s, j, ReadSpin);
    OneMore(l, s, Try(j, ReadSpin), u);
    s := At(u, j, ReadReady);
    OneMore(l, u, Go(j, false), s);
    u := At(s.(read := s.read + 1), j, ReadCounted);
    OneMore(l, s, Go(j, false), u);
    t := At(u, j, ReadIn);
    OneMore(l, u, Go(j, false), t);
  }

  // ------------------------------------------------------------ no deadlock

  /** Can thread `j` do something that changes the lock? */
  predicate Moves(l: Lock, j: nat)
    requires j < |l.phases|
  {
    (Enter(l, j, false).Next? && Enter(l, j, false).l != l) || Leave(l, j).Next?
  }

  /** No deadlock: while a thread is on its way in, some thread can go on, or is inside
      and will leave. */
  lemma {:induction false} NeverStuck(steps: seq<Label>, i: nat)
    requires RunAll(steps).Next? && i < |RunAll(steps).l.phases| && RunAll(steps).l.phases[i] != Out
    ensures var l := RunAll(steps).l; exists j :: 0 <= j < |l.phases| && Moves(l, j)
  {
    FromCounted(START, steps);
    var l := RunAll(steps).l;
    if !Moves(l, i) { Waits(l, i); }
  }

  lemma {:induction false} Waits(l: Lock, i: nat)
    requires Counted(l) && i < |l.phases| && l.phases[i] != Out && !Moves(l, i)
    ensures exists j :: 0 <= j < |l.phases| && Moves(l, j)
  {
    var n := multiset(l.phases);
    assert l.phases[i] in n;
    var p := if l.read == 0 then (if n[WriteIn] > 0 then WriteIn else WriteWait)
             else if n[ReadCounted] > 0 then ReadCounted else if n[ReadBack] > 0 then ReadBack else ReadIn;
    assert n[p] > 0;
    var j :| 0 <= j < |l.phases| && l.phases[j] == p;
    assert Moves(l, j);
  }
}
