/** The LPeg matching machine: instructions, one machine step, and the
    equivalence of machine states that the compiler proof works with. */
module LpegVm {
  import opened LpegTree

  /** Offsets are relative to the instruction that carries them, counted in
      instructions; the operand words of an instruction are part of it. */
  datatype Instr =
    | IAny
    | IChar(c: Byte)
    | ISet(cs: Charset)
    | ITestAny(offset: int)
    | ITestChar(c: Byte, offset: int)
    | ITestSet(cs: Charset, offset: int)
    | ISpan(cs: Charset)
    | IBehind(n: nat)
    | IEnd
    | IChoice(offset: int)
    | IJmp(offset: int)
    | ICommit(offset: int)
    | IPartialCommit(offset: int)
    | IBackCommit(offset: int)
    | IFailTwice
    | IFail
    | IFullCapture(kind: nat, key: nat, len: nat)
    | IOpenCapture(kind: nat, key: nat)
    | ICloseCapture

  /** A backtrack entry: where to resume, at which position, keeping how many captures. */
  datatype Entry = Entry(pc: int, pos: nat, caplevel: nat)

  datatype Stack = Bottom | Push(top: Entry, below: Stack)

  /** The address of the machine's own give-up instruction. */
  const GIVEUP := -1

  datatype State =
    | Running(pc: int, pos: nat, caps: seq<CapEvent>, stack: Stack)
    | Success(pos: nat, caps: seq<CapEvent>)
    | GaveUp
    | Crashed

  datatype Machine = Machine(code: seq<Instr>, subject: Subject)

  function SpanEnd(s: Subject, i: nat, cs: Charset): (j: nat)
    requires i <= |s|
    ensures i <= j <= |s|
    decreases |s| - i
  {
    if i < |s| && s[i] in cs then SpanEnd(s, i + 1, cs) else i
  }

  /** Backtrack: resume the topmost entry and forget the captures made since. */
  function FailState(caps: seq<CapEvent>, stack: Stack): State {
    match stack
    case Bottom => Crashed
    case Push(e, below) =>
      if e.caplevel <= |caps| then Running(e.pc, e.pos, caps[..e.caplevel], below) else Crashed
  }

  function Step(m: Machine, st: State): State {
    if !st.Running? then st
    else
      var Running(pc, i, caps, stack) := st;
      var s := m.subject;
      if pc == GIVEUP then GaveUp
      else if pc < 0 || pc >= |m.code| || i > |s| then Crashed
      else
        match m.code[pc]
        case IEnd => Success(i, caps)
        case IAny => if i < |s| then Running(pc + 1, i + 1, caps, stack) else FailState(caps, stack)
        case IChar(c) =>
          if i < |s| && s[i] == c then Running(pc + 1, i + 1, caps, stack) else FailState(caps, stack)
        case ISet(cs) =>
          if i < |s| && s[i] in cs then Running(pc + 1, i + 1, caps, stack) else FailState(caps, stack)
        case ITestAny(off) => Running(if i < |s| then pc + 1 else pc + off, i, caps, stack)
        case ITestChar(c, off) => Running(if i < |s| && s[i] == c then pc + 1 else pc + off, i, caps, stack)
        case ITestSet(cs, off) => Running(if i < |s| && s[i] in cs then pc + 1 else pc + off, i, caps, stack)
        case ISpan(cs) => Running(pc + 1, SpanEnd(s, i, cs), caps, stack)
        case IBehind(n) => if n > i then FailState(caps, stack) else Running(pc + 1, i - n, caps, stack)
        case IJmp(off) => Running(pc + off, i, caps, stack)
        case IChoice(off) => Running(pc + 1, i, caps, Push(Entry(pc + off, i, |caps|), stack))
        case ICommit(off) =>
          if stack.Bottom? then Crashed else Running(pc + off, i, caps, stack.below)
        case IPartialCommit(off) =>
          if stack.Bottom? then Crashed
          else Running(pc + off, i, caps, Push(Entry(stack.top.pc, i, |caps|), stack.below))
        case IBackCommit(off) =>
          if stack.Bottom? || stack.top.caplevel > |caps| then Crashed
          else Running(pc + off, stack.top.pos, caps[..stack.top.caplevel], stack.below)
        case IFailTwice => if stack.Bottom? then Crashed else FailState(caps, stack.below)
        case IFail => FailState(caps, stack)
        case IFullCapture(kind, key, len) =>
          if len > i then Crashed
          else Running(pc + 1, i, caps + [OpenCap(kind, key, i - len), CloseCap(i)], stack)
        case IOpenCapture(kind, key) => Running(pc + 1, i, caps + [OpenCap(kind, key, i)], stack)
        case ICloseCapture => Running(pc + 1, i, caps + [CloseCap(i)], stack)
  }

  function Steps(m: Machine, st: State, n: nat): State
    decreases n
  {
    if n == 0 then st else Steps(m, Step(m, st), n - 1)
  }

  // ------------------------------------------------------ equivalent states

  /** Two states are equivalent when their (deterministic) runs meet. */
  ghost predicate Joins(m: Machine, a: State, b: State) {
    match m
    case Machine(_, _) => exists x: nat, y: nat :: Steps(m, a, x) == Steps(m, b, y)
  }

  lemma {:induction false} StepsAdd(m: Machine, st: State, x: nat, y: nat)
    ensures Steps(m, st, x + y) == Steps(m, Steps(m, st, x), y)
    decreases x
  {
    if x > 0 {
      StepsAdd(m, Step(m, st), x - 1, y);
    }
  }

  lemma JoinsRefl(m: Machine, a: State)
    ensures Joins(m, a, a)
  {
    assert Steps(m, a, 0) == Steps(m, a, 0);
  }

  lemma JoinsSym(m: Machine, a: State, b: State)
    requires Joins(m, a, b)
    ensures Joins(m, b, a)
  {
    var x: nat, y: nat :| Steps(m, a, x) == Steps(m, b, y);
    assert Steps(m, b, y) == Steps(m, a, x);
  }

  lemma JoinsTrans(m: Machine, a: State, b: State, c: State)
    requires Joins(m, a, b) && Joins(m, b, c)
    ensures Joins(m, a, c)
  {
    var x: nat, y: nat :| Steps(m, a, x) == Steps(m, b, y);
    var y': nat, z: nat :| Steps(m, b, y') == Steps(m, c, z);
    if y <= y' {
      StepsAdd(m, b, y, y' - y);
      StepsAdd(m, a, x, y' - y);
      assert Steps(m, a, x + (y' - y)) == Steps(m, c, z);
    } else {
      StepsAdd(m, b, y', y - y');
      StepsAdd(m, c, z, y - y');
      assert Steps(m, a, x) == Steps(m, c, z + (y - y'));
    }
  }

  lemma JoinsStep(m: Machine, a: State)
    ensures Joins(m, a, Step(m, a))
  {
    assert Steps(m, a, 1) == Steps(m, Step(m, a), 0);
  }

  /** One step on the left of an equivalence. */
  lemma JoinsAfterStep(m: Machine, a: State, b: State)
    requires Joins(m, Step(m, a), b)
    ensures Joins(m, a, b)
  {
    JoinsStep(m, a);
    JoinsTrans(m, a, Step(m, a), b);
  }

  lemma {:induction false} HaltedStays(m: Machine, st: State, n: nat)
    requires !st.Running?
    ensures Steps(m, st, n) == st
  {
    if n > 0 {
      HaltedStays(m, st, n - 1);
    }
  }

  /** Being equivalent to a halted state means reaching it, and staying there. */
  lemma JoinsHalted(m: Machine, a: State, b: State) returns (n: nat)
    requires Joins(m, a, b) && !b.Running?
    ensures forall k: nat :: k >= n ==> Steps(m, a, k) == b
  {
    var x: nat, y: nat :| Steps(m, a, x) == Steps(m, b, y);
    HaltedStays(m, b, y);
    n := x;
    forall k: nat | k >= n
      ensures Steps(m, a, k) == b
    {
      StepsAdd(m, a, x, k - x);
      HaltedStays(m, b, k - x);
    }
  }
}
