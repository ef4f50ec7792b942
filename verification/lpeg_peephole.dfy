/** The last pass of LPeg's compiler: jumps to jumps are shortened, and a jump
    to an instruction that always jumps becomes that instruction.  The pass
    changes no answer of the machine, so the code that the compiler leaves
    computes the meaning of the pattern. */
module LpegPeephole {
  import opened LpegTree
  import opened LpegAnalysis
  import opened LpegVm
  import opened LpegCode
  import opened LpegCorrect
  import opened LpegEmit

  // ------------------------------------------------------------ chains of jumps

  /** Labels stay inside the code, and every jump goes to a place of lower rank. */
  ghost predicate Ranked(code: seq<Instr>, rank: seq<nat>) {
    && |rank| == |code|
    && forall k :: 0 <= k < |code| && HasOffset(code[k]) ==>
         && 0 <= k + code[k].offset < |code|
         && (code[k].IJmp? ==> rank[k + code[k].offset] < rank[k])
  }

  /** The end of the chain of jumps that starts at `pc`. */
  ghost function Final(code: seq<Instr>, rank: seq<nat>, pc: int): (r: int)
    requires Ranked(code, rank)
    ensures 0 <= pc < |code| <==> 0 <= r < |code|
    ensures 0 <= pc < |code| ==> !code[r].IJmp?
    ensures !(0 <= pc < |code|) ==> r == pc
    decreases if 0 <= pc < |code| then rank[pc] else 0
  {
    if 0 <= pc < |code| && code[pc].IJmp? then Final(code, rank, pc + code[pc].offset) else pc
  }

  ghost predicate SameStack(code: seq<Instr>, rank: seq<nat>, a: Stack, b: Stack)
    requires Ranked(code, rank)
  {
    match (a, b)
    case (Bottom, Bottom) => true
    case (Push(x, below), Push(y, below')) =>
      && Final(code, rank, x.pc) == Final(code, rank, y.pc) && x.pos == y.pos && x.caplevel == y.caplevel
      && SameStack(code, rank, below, below')
    case _ => false
  }

  /** Two states that differ at most in how far they are along a chain of jumps. */
  ghost predicate Same(code: seq<Instr>, rank: seq<nat>, a: State, b: State)
    requires Ranked(code, rank)
  {
    if a.Running? && b.Running? then
      && Final(code, rank, a.pc) == Final(code, rank, b.pc) && a.pos == b.pos && a.caps == b.caps
      && SameStack(code, rank, a.stack, b.stack)
    else a == b
  }

  // --------------------------------------------------------- allowed rewritings

  /** Instructions that never go on to the next instruction. */
  predicate Leaves(x: Instr) {
    x.IEnd? || x.IFail? || x.IFailTwice? || x.ICommit? || x.IPartialCommit? || x.IBackCommit? || x.IJmp?
  }

  /** Does `y` at place `q` do what `x` does at place `p`? */
  ghost predicate Alike(code: seq<Instr>, rank: seq<nat>, p: int, x: Instr, q: int, y: Instr)
    requires Ranked(code, rank)
  {
    && (Leaves(x) || p == q)
    && (if HasOffset(x) then
          && HasOffset(y) && WithOffset(x, 0) == WithOffset(y, 0)
          && Final(code, rank, p + x.offset) == Final(code, rank, q + y.offset)
        else x == y)
  }

  /** Place `q` of the rewritten code does what the end of the chain at `q` did. */
  ghost predicate Kept(code: seq<Instr>, rank: seq<nat>, q: int, y: Instr)
    requires Ranked(code, rank) && 0 <= q < |code|
  {
    if y.IJmp? then Final(code, rank, q + y.offset) == Final(code, rank, q)
    else
      var p := Final(code, rank, q);
      Alike(code, rank, p, code[p], q, y)
  }

  ghost predicate Rewrites(code: seq<Instr>, rank: seq<nat>, code': seq<Instr>) {
    && Ranked(code, rank) && Ranked(code', rank)
    && forall q :: 0 <= q < |code| ==> Kept(code, rank, q, code'[q])
  }

  // ----------------------------------------------------------------- simulation

  lemma {:induction false} SameStackRefl(code: seq<Instr>, rank: seq<nat>, a: Stack)
    requires Ranked(code, rank)
    ensures SameStack(code, rank, a, a)
  {
    if a.Push? {
      SameStackRefl(code, rank, a.below);
    }
  }

  lemma {:induction false} SameFail(code: seq<Instr>, rank: seq<nat>, caps: seq<CapEvent>, a: Stack, b: Stack)
    requires Ranked(code, rank) && SameStack(code, rank, a, b)
    ensures Same(code, rank, FailState(caps, a), FailState(caps, b))
  {
  }

  /** One instruction and its rewritten form lead to states that are the same again. */
  lemma {:induction false} AlikeStep(m: Machine, m': Machine, rank: seq<nat>, a: State, b: State)
    requires Rewrites(m.code, rank, m'.code) && m.subject == m'.subject
    requires a.Running? && b.Running? && Same(m.code, rank, a, b)
    requires a.pc == Final(m.code, rank, a.pc)
    requires 0 <= b.pc < |m'.code| ==> !m'.code[b.pc].IJmp?
    ensures Same(m.code, rank, Step(m, a), Step(m', b))
  {
    hide Final;
    var code := m.code;
    if 0 <= a.pc < |code| && a.pos <= |m.subject| {
      var x, y := code[a.pc], m'.code[b.pc];
      assert Kept(code, rank, b.pc, y);
      assert Alike(code, rank, a.pc, x, b.pc, y);
      SameFail(code, rank, a.caps, a.stack, b.stack);
      if HasOffset(x) {
        AlikeJump(m, m', rank, a, b);
      } else if x.IFailTwice? && a.stack.Push? {
        SameFail(code, rank, a.caps, a.stack.below, b.stack.below);
      }
    }
  }

  lemma {:induction false} AlikeJump(m: Machine, m': Machine, rank: seq<nat>, a: State, b: State)
    requires Ranked(m.code, rank) && |m.code| == |m'.code| && m.subject == m'.subject
    requires a.Running? && b.Running? && Same(m.code, rank, a, b) && a.pos <= |m.subject|
    requires 0 <= a.pc < |m.code| && 0 <= b.pc < |m.code|
    requires HasOffset(m.code[a.pc]) && !m.code[a.pc].IJmp?
    requires Alike(m.code, rank, a.pc, m.code[a.pc], b.pc, m'.code[b.pc])
    ensures Same(m.code, rank, Step(m, a), Step(m', b))
  {
    hide Ranked, Final;
    match m.code[a.pc]
    case IChoice(_) =>
    case ITestAny(_) =>
    case ITestChar(_, _) =>
    case ITestSet(_, _) =>
    case ICommit(_) =>
    case IPartialCommit(_) =>
    case IBackCommit(_) =>
  }

  /** Whatever a run ends in, it ends in from the end of its chain of jumps, and no later. */
  lemma {:induction false} SkipJumps(m: Machine, rank: seq<nat>, a: State, n: nat) returns (k: nat)
    requires Ranked(m.code, rank) && a.Running? && !Steps(m, a, n).Running?
    ensures k <= n && Steps(m, a.(pc := Final(m.code, rank, a.pc)), k) == Steps(m, a, n)
    decreases n
  {
    if 0 <= a.pc < |m.code| && m.code[a.pc].IJmp? && a.pos <= |m.subject| {
      assert n > 0;
      k := SkipJumps(m, rank, Step(m, a), n - 1);
    } else if 0 <= a.pc < |m.code| && m.code[a.pc].IJmp? {
      var b := a.(pc := Final(m.code, rank, a.pc));
      assert Step(m, a) == Crashed && Step(m, b) == Crashed;
      assert n > 0;
      HaltedStays(m, Crashed, n - 1);
      k := 1;
      assert Steps(m, b, 1) == Steps(m, Step(m, b), 0);
    } else {
      k := n;
    }
  }

  lemma {:induction false} Follows(m: Machine, m': Machine, rank: seq<nat>, a: State, b: State, n: nat) returns (k: nat)
    requires Rewrites(m.code, rank, m'.code) && m.subject == m'.subject
    requires Same(m.code, rank, a, b) && !Steps(m, a, n).Running?
    ensures Steps(m', b, k) == Steps(m, a, n)
    decreases n, if b.Running? && 0 <= b.pc < |rank| then rank[b.pc] else 0
  {
    if !b.Running? {
      HaltedStays(m, a, n);
      k := 0;
    } else if 0 <= b.pc < |m'.code| && m'.code[b.pc].IJmp? && b.pos <= |m.subject| {
      SameAfterJump(m, m', rank, a, b);
      k := Follows(m, m', rank, a, Step(m', b), n);
      k := k + 1;
    } else {
      var n' := SkipJumps(m, rank, a, n);
      var c := a.(pc := Final(m.code, rank, a.pc));
      assert n' > 0;
      SameAfterStep(m, m', rank, c, b);
      k := Follows(m, m', rank, Step(m, c), Step(m', b), n' - 1);
      k := k + 1;
    }
  }

  /** A jump of the rewritten code needs no step of the original. */
  lemma {:induction false} SameAfterJump(m: Machine, m': Machine, rank: seq<nat>, a: State, b: State)
    requires Rewrites(m.code, rank, m'.code) && m.subject == m'.subject && Same(m.code, rank, a, b) && b.Running?
    requires 0 <= b.pc < |m'.code| && m'.code[b.pc].IJmp? && b.pos <= |m.subject|
    ensures var c := Step(m', b);
            c.Running? && Same(m.code, rank, a, c) && 0 <= c.pc < |rank| && rank[c.pc] < rank[b.pc]
  {
    assert Kept(m.code, rank, b.pc, m'.code[b.pc]);
  }

  lemma {:induction false} SameAfterStep(m: Machine, m': Machine, rank: seq<nat>, a: State, b: State)
    requires Rewrites(m.code, rank, m'.code) && m.subject == m'.subject
    requires a.Running? && b.Running? && Same(m.code, rank, a, b) && a.pc == Final(m.code, rank, a.pc)
    requires 0 <= b.pc < |m'.code| && m'.code[b.pc].IJmp? ==> b.pos > |m.subject|
    ensures Same(m.code, rank, Step(m, a), Step(m', b))
  {
    if !(0 <= b.pc < |m'.code| && m'.code[b.pc].IJmp?) {
      AlikeStep(m, m', rank, a, b);
    }
  }

  /** Every run of `code` that ends has a run of `code'` with the same end. */
  ghost predicate SameRuns(code: seq<Instr>, code': seq<Instr>) {
    forall s: Subject, i: nat, n: nat :: i <= |s| && !Steps(Machine(code, s), Initial(i), n).Running? ==>
      EndsIn(code', s, i, Steps(Machine(code, s), Initial(i), n))
  }

  ghost predicate EndsIn(code: seq<Instr>, s: Subject, i: nat, st: State) {
    exists n: nat :: Steps(Machine(code, s), Initial(i), n) == st
  }

  lemma {:induction false} RewritesKeepsRuns(code: seq<Instr>, rank: seq<nat>, code': seq<Instr>)
    requires Rewrites(code, rank, code')
    ensures SameRuns(code, code')
  {
    forall s: Subject, i: nat, n: nat | i <= |s| && !Steps(Machine(code, s), Initial(i), n).Running?
      ensures EndsIn(code', s, i, Steps(Machine(code, s), Initial(i), n))
    {
      SameStackRefl(code, rank, Initial(i).stack);
      var k := Follows(Machine(code, s), Machine(code', s), rank, Initial(i), Initial(i), n);
    }
  }

  lemma {:induction false} SameRunsTrans(a: seq<Instr>, b: seq<Instr>, c: seq<Instr>)
    requires SameRuns(a, b) && SameRuns(b, c)
    ensures SameRuns(a, c)
  {
    forall s: Subject, i: nat, n: nat | i <= |s| && !Steps(Machine(a, s), Initial(i), n).Running?
      ensures EndsIn(c, s, i, Steps(Machine(a, s), Initial(i), n))
    {
      var st := Steps(Machine(a, s), Initial(i), n);
      assert EndsIn(b, s, i, st);
      var k: nat :| Steps(Machine(b, s), Initial(i), k) == st;
      assert !Steps(Machine(b, s), Initial(i), k).Running?;
      assert EndsIn(c, s, i, Steps(Machine(b, s), Initial(i), k));
    }
  }

  // --------------------------------------------- generated code has finite chains

  /** Labels stay inside the block or go to its end.  A backward jump goes to
      a test; when that test is itself a jump, it goes just behind the backward jump. */
  predicate Fits(code: seq<Instr>, k: int)
    requires 0 <= k < |code|
  {
    HasOffset(code[k]) ==>
      && 0 <= k + code[k].offset <= |code|
      && (code[k].IJmp? ==>
            || code[k].offset > 0
            || (code[k].offset < 0 && BackOk(code[k + code[k].offset], 1 - code[k].offset)))
  }

  predicate BackOk(x: Instr, distance: int) { x.IJmp? ==> x.offset == distance }

  ghost predicate Settled(code: seq<Instr>) { forall k :: 0 <= k < |code| ==> Fits(code, k) }

  lemma {:induction false} SettledPart(code: seq<Instr>, at: nat, part: seq<Instr>)
    requires Settled(part) && at + |part| <= |code| && code[at..at + |part|] == part
    ensures forall k :: at <= k < at + |part| ==> Fits(code, k)
  {
    forall k | at <= k < at + |part|
      ensures Fits(code, k)
    {
      assert Fits(part, k - at);
      assert forall j :: 0 <= j < |part| ==> part[j] == code[at + j];
      assert code[k] == part[k - at];
    }
  }

  lemma {:induction false} SettledJoin(a: seq<Instr>, b: seq<Instr>)
    requires Settled(a) && Settled(b)
    ensures Settled(a + b)
  {
    SettledPart(a + b, 0, a);
    SettledPart(a + b, |a|, b);
  }

  lemma {:induction false} SettledOne(x: Instr)
    requires HasOffset(x) ==> x.offset == 1
    ensures Settled([x])
  {
  }

  lemma {:induction false} TestFits(cs: Charset, off: int)
    ensures HasOffset(CodeTestSet(cs, off)) && CodeTestSet(cs, off).offset == off
  {
  }

  lemma {:induction false} CharsetHasNoOffset(cs: Charset, tt: Test)
    ensures !HasOffset(CodeCharset(cs, tt))
  {
  }

  lemma {:induction false} TestedChoiceSettled(cs: Charset, c1: seq<Instr>, c2: seq<Instr>, emptyq: bool)
    requires Settled(c1) && Settled(c2) && (emptyq ==> c2 == [])
    ensures Settled(TestedChoiceCode(cs, c1, c2, emptyq))
  {
    var code := TestedChoiceCode(cs, c1, c2, emptyq);
    TestFits(cs, 1 + |c1| + if emptyq then 0 else 1);
    SettledPart(code, 1, c1);
    SettledPart(code, |code| - |c2|, c2);
  }

  lemma {:induction false} ChoiceSettled(f: First, c1: seq<Instr>, c2: seq<Instr>)
    requires Settled(c1) && Settled(c2)
    ensures Settled(ChoiceCode(f, c1, c2))
  {
    var code := ChoiceCode(f, c1, c2);
    var start := |OptionalTest(f, |c1| + 2)|;
    TestFits(f.cs, |c1| + 3);
    SettledPart(code, start + 1, c1);
    SettledPart(code, start + 2 + |c1|, c2);
  }

  lemma {:induction false} TestedLoopSettled(cs: Charset, c: seq<Instr>)
    requires Settled(c)
    ensures Settled(TestedLoopCode(cs, c))
  {
    var code := TestedLoopCode(cs, c);
    TestFits(cs, 2 + |c|);
    SettledPart(code, 1, c);
    assert code[0] == CodeTestSet(cs, 2 + |c|);
  }

  lemma {:induction false} LoopSettled(f: First, c: seq<Instr>, opt: bool)
    requires Settled(c)
    ensures Settled(LoopCode(f, c, opt))
  {
    var code := LoopCode(f, c, opt);
    var start := |OptionalTest(f, |c| + 2)|;
    TestFits(f.cs, |c| + 3);
    SettledPart(code, start + 1, c);
  }

  lemma {:induction false} NotSettled(f: First, c: seq<Instr>)
    requires Settled(c)
    ensures Settled(NotCode(f, c)) && Settled(OptionalTest(f, 1) + [IFail])
  {
    var code := NotCode(f, c);
    var start := |OptionalTest(f, |c| + 2)|;
    TestFits(f.cs, |c| + 3);
    TestFits(f.cs, 2);
    SettledPart(code, start + 1, c);
  }

  lemma {:induction false} AndSettled(c: seq<Instr>)
    requires Settled(c)
    ensures Settled(AndCode(c))
  {
    SettledPart(AndCode(c), 1, c);
  }

  lemma {:induction false} GenSettled(t: Tree, opt: bool, tt: Test, fl: Charset)
    ensures Settled(CodeGen(t, opt, tt, fl))
    decreases t, 1
  {
    match t
    case TSet(cs) =>
      CharsetHasNoOffset(cs, tt);
    case TChoice(p, q) =>
      ChoiceGenSettled(p, q, opt, fl);
    case TRep(p) =>
      RepGenSettled(p, opt, fl);
    case TBehind(p, n) =>
      GenSettled(p, false, NoInst, FULLSET);
      SettledJoin(if n > 0 then [IBehind(n)] else [], CodeGen(p, false, NoInst, FULLSET));
    case TNot(p) =>
      GenSettled(p, false, NoInst, FULLSET);
      NotSettled(GetFirst(p, FULLSET), CodeGen(p, false, NoInst, FULLSET));
    case TAnd(p) =>
      GenSettled(p, false, tt, FULLSET);
      AndSettled(CodeGen(p, false, tt, FULLSET));
      var n := FixedLen(p);
      SettledJoin(CodeGen(p, false, tt, FULLSET), if n > 0 then [IBehind(n)] else []);
    case TCapture(kind, key, p) =>
      CaptureGenSettled(kind, key, p, tt, fl);
    case TSeq(p, q) =>
      GenSettled(p, false, tt, SeqFollow(p, q, fl));
      GenSettled(q, opt, SeqTest(p, tt), fl);
      SettledJoin(CodeGen(p, false, tt, SeqFollow(p, q, fl)), CodeGen(q, opt, SeqTest(p, tt), fl));
    case _ =>
  }

  lemma {:induction false} ChoiceGenSettled(p: Tree, q: Tree, opt: bool, fl: Charset)
    ensures Settled(CodeChoice(p, q, opt, fl))
    decreases TChoice(p, q), 0
  {
    var f := GetFirst(p, FULLSET);
    GenSettled(q, opt, NoInst, fl);
    if TestDecidesChoice(p, q, fl) {
      GenSettled(p, false, TestFor(f.cs), fl);
      TestedChoiceSettled(f.cs, CodeGen(p, false, TestFor(f.cs), fl), CodeGen(q, opt, NoInst, fl), q.TTrue?);
    } else if opt && q.TTrue? {
      GenSettled(p, true, NoInst, FULLSET);
      SettledOne(IPartialCommit(1));
      SettledJoin([IPartialCommit(1)], CodeGen(p, true, NoInst, FULLSET));
    } else {
      GenSettled(p, q.TTrue?, OptionalTestFor(f), FULLSET);
      ChoiceSettled(f, CodeGen(p, q.TTrue?, OptionalTestFor(f), FULLSET), CodeGen(q, opt, NoInst, fl));
    }
  }

  lemma {:induction false} RepGenSettled(p: Tree, opt: bool, fl: Charset)
    ensures Settled(CodeRep(p, opt, fl))
    decreases TRep(p), 0
  {
    var f := GetFirst(p, FULLSET);
    if ToCharset(p).IsCharset? {
      SettledOne(ISpan(ToCharset(p).cs));
    } else if TestDecidesLoop(p, fl) {
      GenSettled(p, false, TestFor(f.cs), FULLSET);
      TestedLoopSettled(f.cs, CodeGen(p, false, TestFor(f.cs), FULLSET));
    } else {
      GenSettled(p, false, NoInst, FULLSET);
      LoopSettled(f, CodeGen(p, false, NoInst, FULLSET), opt);
    }
  }

  lemma {:induction false} CaptureGenSettled(kind: nat, key: nat, p: Tree, tt: Test, fl: Charset)
    ensures Settled(CodeCapture(kind, key, p, tt, fl))
    decreases TCapture(kind, key, p), 0
  {
    var c := CodeGen(p, false, tt, fl);
    GenSettled(p, false, tt, fl);
    if 0 <= FixedLen(p) <= MAXOFF && !HasCaptures(p) {
      SettledOne(IFullCapture(kind, key, FixedLen(p)));
      SettledJoin(c, [IFullCapture(kind, key, FixedLen(p))]);
    } else {
      SettledOne(IOpenCapture(kind, key));
      SettledOne(ICloseCapture);
      SettledJoin([IOpenCapture(kind, key)], c);
      SettledJoin([IOpenCapture(kind, key)] + c, [ICloseCapture]);
    }
  }

  ghost function RankAt(code: seq<Instr>, k: nat): nat
    requires k < |code| && Fits(code, k)
  {
    if !code[k].IJmp? then 0
    else if code[k].offset > 0 then 2 * (|code| - (k + code[k].offset)) + 1
    else 2 * (|code| - k)
  }

  /** Generated code, once it ends in IEnd, has no cycle of jumps. */
  lemma {:induction false} GeneratedIsRanked(block: seq<Instr>) returns (rank: seq<nat>)
    requires Settled(block)
    ensures Ranked(block + [IEnd], rank)
  {
    var code := block + [IEnd];
    SettledPart(code, 0, block);
    assert Fits(code, |block|);
    rank := seq(|code|, (k: int) requires 0 <= k < |code| => if Fits(code, k) then RankAt(code, k) else 0);
    forall k | 0 <= k < |code| && HasOffset(code[k])
      ensures 0 <= k + code[k].offset < |code| && (code[k].IJmp? ==> rank[k + code[k].offset] < rank[k])
    {
      assert Fits(block, k) && code[k] == block[k];
      if code[k].IJmp? {
        var t := k + code[k].offset;
        assert Fits(code, k) && Fits(code, t);
      }
    }
  }

  // ------------------------------------------------------------------- the pass

  method FinalTarget(code: seq<Instr>, i: nat, ghost rank: seq<nat>) returns (t: nat)
    requires Ranked(code, rank) && i < |code|
    ensures t < |code| && t == Final(code, rank, i)
  {
    t := i;
    while code[t].IJmp?
      invariant t < |code| && Final(code, rank, t) == Final(code, rank, i)
      decreases rank[t]
    {
      t := t + code[t].offset;
    }
  }

  lemma {:induction false} OneRewrite(code: seq<Instr>, rank: seq<nat>, i: nat, y: Instr)
    requires Ranked(code, rank) && i < |code| && Kept(code, rank, i, y)
    requires HasOffset(y) ==> 0 <= i + y.offset < |code| && (y.IJmp? ==> rank[i + y.offset] < rank[i])
    ensures Rewrites(code, rank, code[i := y]) && SameRuns(code, code[i := y])
  {
    var code' := code[i := y];
    forall q | 0 <= q < |code|
      ensures Kept(code, rank, q, code'[q])
    {
    }
    RewritesKeepsRuns(code, rank, code');
  }

  lemma {:induction false} RankFalls(code: seq<Instr>, rank: seq<nat>, i: nat)
    requires Ranked(code, rank) && i < |code|
    ensures rank[Final(code, rank, i)] <= rank[i]
    ensures code[i].IJmp? ==> rank[Final(code, rank, i)] < rank[i]
    decreases rank[i]
  {
    if code[i].IJmp? {
      RankFalls(code, rank, i + code[i].offset);
    }
  }

  /** A label goes straight to where it would end up. */
  method OptimiseLabel(s: CompileState, i: nat, ghost rank: seq<nat>)
    requires Ranked(s.code, rank) && i < |s.code| && HasOffset(s.code[i]) && !s.code[i].IJmp?
    modifies s
    ensures Ranked(s.code, rank) && SameRuns(old(s.code), s.code)
    ensures s.code == old(s.code)[i := s.code[i]]
  {
    var fl := FinalTarget(s.code, i + s.code[i].offset, rank);
    OneRewrite(s.code, rank, i, WithOffset(s.code[i], fl - i));
    s.JumpToThere(i, fl);
  }

  /** What the end of a chain of jumps does may be done where the chain begins. */
  lemma {:induction false} JumpBecomes(code: seq<Instr>, rank: seq<nat>, i: nat, y: Instr)
    requires Ranked(code, rank) && i < |code| && code[i].IJmp?
    requires var p := Final(code, rank, i);
             || (y.IJmp? && i + y.offset == p)
             || (y == code[p] && (y.IFail? || y.IFailTwice? || y.IEnd?))
             || (HasOffset(y) && !y.IJmp? && Leaves(code[p]) && HasOffset(code[p])
                 && WithOffset(y, 0) == WithOffset(code[p], 0)
                 && i + y.offset == Final(code, rank, p + code[p].offset))
    ensures Rewrites(code, rank, code[i := y]) && SameRuns(code, code[i := y])
  {
    RankFalls(code, rank, i);
    OneRewrite(code, rank, i, y);
  }

  /** The instruction that a jump becomes: the one it leads to, if that always
      jumps, with its label followed to the end; otherwise a jump straight to it. */
  method Replacement(code: seq<Instr>, i: nat, ghost rank: seq<nat>) returns (y: Instr)
    requires Ranked(code, rank) && i < |code| && code[i].IJmp?
    ensures Rewrites(code, rank, code[i := y]) && SameRuns(code, code[i := y])
  {
    var ft := FinalTarget(code, i, rank);
    var x := code[ft];
    match x {
      case IFail | IFailTwice | IEnd =>
        y := x;
      case ICommit(_) | IPartialCommit(_) | IBackCommit(_) =>
        var fft := FinalTarget(code, ft + x.offset, rank);
        y := WithOffset(x, fft - i);
      case _ =>
        y := IJmp(ft - i);
    }
    JumpBecomes(code, rank, i, y);
  }

  method OptimiseJump(s: CompileState, i: nat, ghost rank: seq<nat>)
    requires Ranked(s.code, rank) && i < |s.code| && s.code[i].IJmp?
    modifies s
    ensures Ranked(s.code, rank) && SameRuns(old(s.code), s.code)
    ensures s.code == old(s.code)[i := s.code[i]]
  {
    var y := Replacement(s.code, i, rank);
    s.code := s.code[i := y];
  }

  method Peephole(s: CompileState, ghost rank: seq<nat>)
    requires Ranked(s.code, rank)
    modifies s
    ensures Ranked(s.code, rank) && SameRuns(old(s.code), s.code)
  {
    var i := 0;
    while i < |s.code|
      invariant 0 <= i <= |s.code| == |old(s.code)|
      invariant Ranked(s.code, rank) && SameRuns(old(s.code), s.code)
    {
      i := PeepholeAt(s, i, rank);
    }
  }

  method PeepholeAt(s: CompileState, i: nat, ghost rank: seq<nat>) returns (next: nat)
    requires Ranked(s.code, rank) && i < |s.code|
    modifies s
    ensures Ranked(s.code, rank) && |s.code| == |old(s.code)| && next == i + 1
    ensures forall c :: SameRuns(c, old(s.code)) ==> SameRuns(c, s.code)
  {
    ghost var start := s.code;
    if s.code[i].IJmp? {
      OptimiseJump(s, i, rank);
    }
    ghost var mid := s.code;
    if HasOffset(s.code[i]) && !s.code[i].IJmp? {
      OptimiseLabel(s, i, rank);
    }
    next := i + 1;
    forall c | SameRuns(c, start)
      ensures SameRuns(c, s.code)
    {
      if start != mid { SameRunsTrans(c, start, mid); }
      if mid != s.code { SameRunsTrans(c, mid, s.code); }
    }
  }

  /** The whole compiler: the code it leaves computes the meaning of the pattern,
      on every subject and from every position. */
  method CompilePattern(t: Tree) returns (code: seq<Instr>)
    requires WellFormed(t)
    ensures forall s: Subject, i: nat :: i <= |s| ==> EndsIn(code, s, i, Answer(Match(t, s, i)))
  {
    var state := new CompileState();
    state.Emit(t, false, NOINST, FULLSET, NoInst);
    var _ := state.AddInstruction(IEnd);
    ghost var unoptimised := Compile(t);
    assert state.code == unoptimised;
    GenSettled(t, false, NoInst, FULLSET);
    ghost var rank := GeneratedIsRanked(CodeGen(t, false, NoInst, FULLSET));
    Peephole(state, rank);
    code := state.code;
    forall s: Subject, i: nat | i <= |s|
      ensures EndsIn(code, s, i, Answer(Match(t, s, i)))
    {
      var n := CompileCorrect(t, s, i);
      assert Steps(Machine(unoptimised, s), Initial(i), n) == Answer(Match(t, s, i));
    }
  }
}
