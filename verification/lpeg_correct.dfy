/** The code generator preserves the meaning of patterns.

    A block of code sits somewhere in a larger program.  Running it must be
    equivalent to jumping to its end after a match, or to backtracking after a
    failure.  With a follow set `fl` the block may instead fail early, provided
    that what follows it would fail anyway; inside an optional pattern (`opt`)
    it may finish the enclosing choice itself, provided that its end does just
    that.  `Continues` states these two conditions on what follows. */
module LpegCorrect {
  import opened LpegTree
  import opened LpegAnalysis
  import opened LpegVm
  import opened LpegCode

  ghost predicate At(m: Machine, pc: int, block: seq<Instr>) {
    match m
    case Machine(code, _) =>
      && 0 <= pc && pc + |block| <= |code|
      && forall k :: 0 <= k < |block| ==> code[pc + k] == block[k]
  }

  lemma {:induction false} AtSplit(m: Machine, pc: int, a: seq<Instr>, b: seq<Instr>)
    requires At(m, pc, a + b)
    ensures At(m, pc, a) && At(m, pc + |a|, b)
  {
    assert forall k :: 0 <= k < |a| ==> (a + b)[k] == a[k];
    assert forall k :: 0 <= k < |b| ==> (a + b)[|a| + k] == b[k];
  }

  lemma {:induction false} AtOne(m: Machine, pc: int, i: Instr)
    requires At(m, pc, [i])
    ensures 0 <= pc < |m.code| && m.code[pc] == i
  {
    assert [i][0] == i;
  }

  /** The fact that a dominating test provides about the next byte. */
  predicate TestHolds(tt: Test, s: Subject, i: nat) {
    tt.Dominated? ==>
      && (tt.test.ITestChar? ==> i < |s| && s[i] == tt.test.c)
      && (tt.test.ITestSet? ==> i < |s| && s[i] in tt.test.cs)
  }

  predicate TopOk(stack: Stack, n: nat) { stack.Push? && stack.top.caplevel <= n }

  /** Where a block must lead, given the outcome of its pattern. */
  function Target(end: int, r: Outcome, caps: seq<CapEvent>, stack: Stack): State {
    match r
    case NoMatch => FailState(caps, stack)
    case Matched(j, c) => Running(end, j, caps + c, stack)
  }

  /** The block from `pc` to `end` leads where the outcome `r` says. */
  ghost predicate Leads(m: Machine, pc: int, end: int, i: nat, r: Outcome, caps: seq<CapEvent>, stack: Stack)
  {
    Joins(m, Running(pc, i, caps, stack), Target(end, r, caps, stack))
  }

  /** The end of a block inside an optional pattern drops the choice entry and
      continues where that entry points. */
  ghost predicate EndsOption(m: Machine, end: int, j: nat, caps: seq<CapEvent>, stack: Stack) {
    match stack
    case Bottom => false
    case Push(top, below) => forall e: Entry :: e.pc == top.pc ==> LeavesOption(m, end, j, caps, e, below)
  }

  ghost predicate LeavesOption(m: Machine, end: int, j: nat, caps: seq<CapEvent>, e: Entry, below: Stack) {
    Joins(m, Running(end, j, caps, Push(e, below)), Running(e.pc, j, caps, below))
  }

  /** What follows a block that ended with outcome `r`: it fails when the next
      byte is not in the follow set, and it leaves the enclosing option. */
  ghost predicate Continues(m: Machine, end: int, opt: bool, fl: Charset, r: Outcome,
                            caps: seq<CapEvent>, stack: Stack)
  {
    match r
    case NoMatch => opt ==> fl == FULLSET
    case Matched(j, c) =>
      && (j < |m.subject| && m.subject[j] !in fl
          ==> Joins(m, Running(end, j, caps + c, stack), FailState(caps, stack)))
      && (opt ==> fl == FULLSET && EndsOption(m, end, j, caps + c, stack))
  }

  /** The situation in which code `c`, laid out from `pc` to `end`, is entered
      for a pattern whose outcome is `r`. */
  ghost predicate Enters(m: Machine, c: seq<Instr>, opt: bool, fl: Charset, r: Outcome,
                         pc: int, end: int, i: nat, caps: seq<CapEvent>, stack: Stack)
  {
    && At(m, pc, c)
    && end == pc + |c|
    && i <= |m.subject|
    && TopOk(stack, |caps|)
    && Continues(m, end, opt, fl, r, caps, stack)
  }

  ghost predicate Ready(m: Machine, t: Tree, opt: bool, tt: Test, fl: Charset,
                        pc: int, end: int, i: nat, caps: seq<CapEvent>, stack: Stack)
  {
    && WellFormed(t)
    && i <= |m.subject|
    && TestHolds(tt, m.subject, i)
    && Enters(m, CodeGen(t, opt, tt, fl), opt, fl, Match(t, m.subject, i), pc, end, i, caps, stack)
  }

  lemma {:induction false} FailDropsCaptures(caps: seq<CapEvent>, more: seq<CapEvent>, stack: Stack)
    requires TopOk(stack, |caps|)
    ensures FailState(caps + more, stack) == FailState(caps, stack)
  {
    assert (caps + more)[..stack.top.caplevel] == caps[..stack.top.caplevel];
  }

  /** A test instruction decides by membership of the next byte, and what it lets through is dominated by it. */
  lemma {:induction false} TestStep(m: Machine, pc: int, cs: Charset, off: int, i: nat, caps: seq<CapEvent>,
                                    stack: Stack)
    requires At(m, pc, [CodeTestSet(cs, off)]) && i <= |m.subject|
    ensures var pass := i < |m.subject| && m.subject[i] in cs;
            && Step(m, Running(pc, i, caps, stack)) == Running(if pass then pc + 1 else pc + off, i, caps, stack)
            && (pass ==> TestHolds(TestFor(cs), m.subject, i))
  {
    AtOne(m, pc, CodeTestSet(cs, off));
  }

  /** One known instruction, then an equivalence. */
  lemma {:induction false} After(m: Machine, pc: int, instr: Instr, i: nat, caps: seq<CapEvent>, stack: Stack, b: State)
    requires At(m, pc, [instr])
    requires Joins(m, Step(m, Running(pc, i, caps, stack)), b)
    ensures Joins(m, Running(pc, i, caps, stack), b)
  {
    JoinsAfterStep(m, Running(pc, i, caps, stack), b);
  }

  // ------------------------------------------------------------ single bytes

  lemma {:induction false} CharCorrect(m: Machine, t: Tree, opt: bool, tt: Test, fl: Charset,
                    pc: int, end: int, i: nat, caps: seq<CapEvent>, stack: Stack)
    requires Ready(m, t, opt, tt, fl, pc, end, i, caps, stack) && (ToCharset(t).IsCharset? || t.TFalse?)
    ensures Leads(m, pc, end, i, Match(t, m.subject, i), caps, stack)
  {
    var c := CodeGen(t, opt, tt, fl);
    assert c == [c[0]];
    AtOne(m, pc, c[0]);
    JoinsStep(m, Running(pc, i, caps, stack));
    assert caps + [] == caps;
  }

  // ------------------------------------------------------------------ choice

  /** A test keeps out of a pattern only what the pattern would reject. */
  lemma {:induction false} TestRejects(p: Tree, s: Subject, i: nat)
    requires WellFormed(p) && i <= |s|
    requires HeadFail(p) || !GetFirst(p, FULLSET).empty
    requires !(i < |s| && s[i] in GetFirst(p, FULLSET).cs)
    ensures Match(p, s, i).NoMatch?
  {
    if Match(p, s, i).Matched? {
      FirstSound(p, FULLSET, s, i);
      if HeadFail(p) {
        HeadFailExact(p, s, i);
      }
      assert false;
    }
  }

  /** After the first alternative failed behind its test, the second one can
      only match nothing in front of a byte outside the follow set. */
  lemma {:induction false} SecondCannotHelp(p: Tree, q: Tree, fl: Charset, s: Subject, i: nat)
    requires WellFormed(p) && WellFormed(q) && TestDecidesChoice(p, q, fl)
    requires i < |s| && s[i] in GetFirst(p, FULLSET).cs
    requires Match(p, s, i).NoMatch? && Match(q, s, i).Matched?
    ensures Match(q, s, i).next == i && s[i] !in fl
  {
    if HeadFail(p) {
      HeadFailExact(p, s, i);
    }
    FirstSound(q, fl, s, i);
    assert !HeadFail(p) && s[i] !in GetFirst(p, FULLSET).cs * GetFirst(q, fl).cs;
  }

  /** A tested choice, given what its two alternatives do. */
  lemma {:induction false} TestedChoice(m: Machine, p: Tree, q: Tree, opt: bool, fl: Charset, off: int, pc: int,
                                        at: int, end: int,
                     i: nat, caps: seq<CapEvent>, stack: Stack)
    requires i <= |m.subject| && WellFormed(p) && WellFormed(q) && TestDecidesChoice(p, q, fl)
    requires At(m, pc, [CodeTestSet(GetFirst(p, FULLSET).cs, off)])
    requires at == end || (At(m, at, [IJmp(end - at)]))
    requires TopOk(stack, |caps|) && Continues(m, end, opt, fl, Match(TChoice(p, q), m.subject, i), caps, stack)
    requires if i < |m.subject| && m.subject[i] in GetFirst(p, FULLSET).cs
             then Leads(m, pc + 1, at, i, Match(p, m.subject, i), caps, stack)
             else Leads(m, pc + off, end, i, Match(q, m.subject, i), caps, stack)
    ensures Leads(m, pc, end, i, Match(TChoice(p, q), m.subject, i), caps, stack)
  {
    var cs := GetFirst(p, FULLSET).cs;
    var r1 := Match(p, m.subject, i);
    var r := Match(TChoice(p, q), m.subject, i);
    TestStep(m, pc, cs, off, i, caps, stack);
    if i < |m.subject| && m.subject[i] in cs {
      if r1.Matched? {
        SkipSecond(m, at, end, r.next, caps + r.caps, stack);
      } else {
        JoinsRefl(m, FailState(caps, stack));
        if r.Matched? {
          SecondCannotHelp(p, q, fl, m.subject, i);
          JoinsSym(m, Target(end, r, caps, stack), FailState(caps, stack));
        }
      }
      JoinsTrans(m, Running(pc + 1, i, caps, stack), Target(at, r1, caps, stack), Target(end, r, caps, stack));
    } else {
      TestRejects(p, m.subject, i);
    }
    JoinsAfterStep(m, Running(pc, i, caps, stack), Target(end, r, caps, stack));
  }

  /** The code between the first alternative and the end of a tested choice only jumps. */
  lemma {:induction false} SkipSecond(m: Machine, at: int, end: int, j: nat, caps: seq<CapEvent>, stack: Stack)
    requires j <= |m.subject| && (at == end || At(m, at, [IJmp(end - at)]))
    ensures Joins(m, Running(at, j, caps, stack), Running(end, j, caps, stack))
  {
    JoinsRefl(m, Running(end, j, caps, stack));
    if at != end {
      AtOne(m, at, IJmp(end - at));
      JoinsStep(m, Running(at, j, caps, stack));
    }
  }

  /** What follows the first alternative is what follows the choice. */
  lemma {:induction false} ContinuesAfterJump(m: Machine, at: int, end: int, fl: Charset, r: Outcome,
                           caps: seq<CapEvent>, stack: Stack)
    requires Continues(m, end, false, fl, r, caps, stack) && (at == end || At(m, at, [IJmp(end - at)]))
    requires r.Matched? ==> r.next <= |m.subject|
    ensures Continues(m, at, false, fl, r, caps, stack)
  {
    if r.Matched? && r.next < |m.subject| && m.subject[r.next] !in fl {
      SkipSecond(m, at, end, r.next, caps + r.caps, stack);
      JoinsTrans(m, Running(at, r.next, caps + r.caps, stack), Running(end, r.next, caps + r.caps, stack),
                 FailState(caps, stack));
    }
  }

  lemma {:induction false} TestedChoiceLayout(m: Machine, pc: int, cs: Charset, c1: seq<Instr>, c2: seq<Instr>,
                                              emptyq: bool)
    requires At(m, pc, TestedChoiceCode(cs, c1, c2, emptyq)) && (emptyq ==> c2 == [])
    ensures var at := pc + 1 + |c1|;
            var second := at + if emptyq then 0 else 1;
            && At(m, pc, [CodeTestSet(cs, second - pc)])
            && At(m, pc + 1, c1)
            && (emptyq || At(m, at, [IJmp(1 + |c2|)]))
            && At(m, second, c2)
            && second + |c2| == pc + |TestedChoiceCode(cs, c1, c2, emptyq)|
  {
    var jmp := if emptyq then [] else [IJmp(1 + |c2|)];
    var test := CodeTestSet(cs, 1 + |c1| + |jmp|);
    AtSplit(m, pc, [test] + c1 + jmp, c2);
    AtSplit(m, pc, [test] + c1, jmp);
    AtSplit(m, pc, [test], c1);
  }

  lemma {:induction false} ChoiceByTest(m: Machine, p: Tree, q: Tree, opt: bool, fl: Charset, c1: seq<Instr>,
                                        c2: seq<Instr>,
                     pc: int, end: int, i: nat, caps: seq<CapEvent>, stack: Stack)
    requires WellFormed(p) && WellFormed(q) && i <= |m.subject| && TopOk(stack, |caps|)
    requires c1 == CodeGen(p, false, TestFor(GetFirst(p, FULLSET).cs), fl) && c2 == CodeGen(q, opt, NoInst, fl)
    requires At(m, pc, TestedChoiceCode(GetFirst(p, FULLSET).cs, c1, c2, q.TTrue?))
    requires end == pc + |TestedChoiceCode(GetFirst(p, FULLSET).cs, c1, c2, q.TTrue?)|
    requires Continues(m, end, opt, fl, Match(TChoice(p, q), m.subject, i), caps, stack)
    requires TestDecidesChoice(p, q, fl)
    ensures Leads(m, pc, end, i, Match(TChoice(p, q), m.subject, i), caps, stack)
    decreases TChoice(p, q), 0
  {
    hide Match, GetFirst, HeadFail, WellFormed, Continues, Leads, Joins, At, TestHolds;
    var cs := GetFirst(p, FULLSET).cs;
    var at := pc + 1 + |c1|;
    var second := at + if q.TTrue? then 0 else 1;
    TestedChoiceLayout(m, pc, cs, c1, c2, q.TTrue?);
    TestStep(m, pc, cs, second - pc, i, caps, stack);
    if i < |m.subject| && m.subject[i] in cs {
      TestedFirst(m, p, q, opt, fl, TestFor(cs), pc + 1, at, end, i, caps, stack);
    } else {
      TestRejects(p, m.subject, i);
      SecondAlternative(m, p, q, opt, fl, second, end, i, caps, stack);
    }
    TestedChoice(m, p, q, opt, fl, second - pc, pc, at, end, i, caps, stack);
  }

  lemma {:induction false} TestedFirst(m: Machine, p: Tree, q: Tree, opt: bool, fl: Charset, tt: Test,
                                       pc: int, at: int, end: int, i: nat, caps: seq<CapEvent>, stack: Stack)
    requires WellFormed(p) && i <= |m.subject| && TopOk(stack, |caps|) && TestHolds(tt, m.subject, i)
    requires At(m, pc, CodeGen(p, false, tt, fl)) && at == pc + |CodeGen(p, false, tt, fl)|
    requires at == end || At(m, at, [IJmp(end - at)])
    requires Continues(m, end, opt, fl, Match(TChoice(p, q), m.subject, i), caps, stack)
    ensures Leads(m, pc, at, i, Match(p, m.subject, i), caps, stack)
    decreases p, 4
  {
    if Match(p, m.subject, i).Matched? {
      ContinuesAfterJump(m, at, end, fl, Match(p, m.subject, i), caps, stack);
    }
    GenCorrect(m, p, false, tt, fl, pc, at, i, caps, stack);
  }

  /** Finishing the enclosing option is as good as reaching the end of the block. */
  lemma {:induction false} ByLeavingOption(m: Machine, a: State, end: int, j: nat, caps: seq<CapEvent>, stack: Stack)
    requires EndsOption(m, end, j, caps, stack)
    requires Joins(m, a, Running(stack.top.pc, j, caps, stack.below))
    ensures Joins(m, a, Running(end, j, caps, stack))
  {
    assert LeavesOption(m, end, j, caps, stack.top, stack.below);
    JoinsSym(m, Running(end, j, caps, stack), Running(stack.top.pc, j, caps, stack.below));
    JoinsTrans(m, a, Running(stack.top.pc, j, caps, stack.below), Running(end, j, caps, stack));
  }

  /** A block that ran with an updated choice entry. */
  lemma {:induction false} WithUpdatedEntry(m: Machine, a: State, end: int, r: Outcome, i: nat, caps: seq<CapEvent>,
                                            stack: Stack)
    requires TopOk(stack, |caps|)
    requires EndsOption(m, end, if r.Matched? then r.next else i, if r.Matched? then caps + r.caps else caps, stack)
    requires Joins(m, a, Target(end, r, caps, Push(Entry(stack.top.pc, i, |caps|), stack.below)))
    ensures Joins(m, a, if r.Matched? then Running(end, r.next, caps + r.caps, stack) else Running(end, i, caps, stack))
  {
    var e := Entry(stack.top.pc, i, |caps|);
    if r.Matched? {
      assert LeavesOption(m, end, r.next, caps + r.caps, e, stack.below);
      JoinsTrans(m, a, Target(end, r, caps, Push(e, stack.below)),
                 Running(e.pc, r.next, caps + r.caps, stack.below));
      ByLeavingOption(m, a, end, r.next, caps + r.caps, stack);
    } else {
      assert caps[..|caps|] == caps;
      ByLeavingOption(m, a, end, i, caps, stack);
    }
  }

  lemma {:induction false} OptionMatch(p: Tree, q: Tree, s: Subject, i: nat)
    requires i <= |s| && q.TTrue?
    ensures var r := Match(p, s, i);
            Match(TChoice(p, q), s, i) == if r.Matched? then r else Matched(i, [])
  {
  }

  /** An optional pattern at the end of an optional pattern reuses its choice entry. */
  lemma {:induction false} ReusedOption(m: Machine, p: Tree, q: Tree, pc: int, end: int, i: nat, caps: seq<CapEvent>,
                                        stack: Stack)
    requires WellFormed(TChoice(p, q)) && q.TTrue? && i <= |m.subject|
    requires Enters(m, CodeChoice(p, q, true, FULLSET), true, FULLSET, Match(TChoice(p, q), m.subject, i), pc, end, i,
             caps, stack)
    requires !TestDecidesChoice(p, q, FULLSET)
    ensures Leads(m, pc, end, i, Match(TChoice(p, q), m.subject, i), caps, stack)
    decreases TChoice(p, q), 0
  {
    var r1 := Match(p, m.subject, i);
    AtSplit(m, pc, [IPartialCommit(1)], CodeGen(p, true, NoInst, FULLSET));
    AtOne(m, pc, IPartialCommit(1));
    OptionMatch(p, q, m.subject, i);
    assert caps + [] == caps;
    var stack' := Push(Entry(stack.top.pc, i, |caps|), stack.below);
    GenCorrect(m, p, true, NoInst, FULLSET, pc + 1, end, i, caps, stack');
    WithUpdatedEntry(m, Running(pc + 1, i, caps, stack'), end, r1, i, caps, stack);
    JoinsAfterStep(m, Running(pc, i, caps, stack), Target(end, Match(TChoice(p, q), m.subject, i), caps, stack));
  }

  lemma {:induction false} ChoiceLayout(m: Machine, pc: int, f: First, c1: seq<Instr>, c2: seq<Instr>)
    requires At(m, pc, ChoiceCode(f, c1, c2))
    ensures var start := pc + if f.empty then 0 else 1;
            && (f.empty || At(m, pc, [CodeTestSet(f.cs, |c1| + 3)]))
            && At(m, start, [IChoice(2 + |c1|)])
            && At(m, start + 1, c1)
            && At(m, start + 1 + |c1|, [ICommit(1 + |c2|)])
            && At(m, start + 2 + |c1|, c2)
            && start + 2 + |c1| + |c2| == pc + |ChoiceCode(f, c1, c2)|
  {
    var t := OptionalTest(f, |c1| + 2);
    AtSplit(m, pc, t + [IChoice(2 + |c1|)] + c1 + [ICommit(1 + |c2|)], c2);
    AtSplit(m, pc, t + [IChoice(2 + |c1|)] + c1, [ICommit(1 + |c2|)]);
    AtSplit(m, pc, t + [IChoice(2 + |c1|)], c1);
    AtSplit(m, pc, t, [IChoice(2 + |c1|)]);
  }

  /** A choice with a backtrack entry, given what its two alternatives do. */
  lemma {:induction false} BacktrackChoice(m: Machine, p: Tree, q: Tree, start: int, second: int, end: int, i: nat,
                        caps: seq<CapEvent>, stack: Stack)
    requires i <= |m.subject|
    requires At(m, start, [IChoice(second - start)]) && At(m, second - 1, [ICommit(end - (second - 1))])
    requires Leads(m, start + 1, second - 1, i, Match(p, m.subject, i), caps, Push(Entry(second, i, |caps|), stack))
    requires Match(p, m.subject, i).NoMatch? ==> Leads(m, second, end, i, Match(q, m.subject, i), caps, stack)
    ensures Leads(m, start, end, i, Match(TChoice(p, q), m.subject, i), caps, stack)
  {
    var r1 := Match(p, m.subject, i);
    var r := Match(TChoice(p, q), m.subject, i);
    var e := Entry(second, i, |caps|);
    AtOne(m, start, IChoice(second - start));
    AtOne(m, second - 1, ICommit(end - (second - 1)));
    if r1.Matched? {
      JoinsStep(m, Target(second - 1, r1, caps, Push(e, stack)));
    } else {
      assert caps[..|caps|] == caps;
    }
    JoinsTrans(m, Running(start + 1, i, caps, Push(e, stack)), Target(second - 1, r1, caps, Push(e, stack)),
               Target(end, r, caps, stack));
    JoinsAfterStep(m, Running(start, i, caps, stack), Target(end, r, caps, stack));
  }

  /** The commit after the first alternative leaves the option that the alternative may be in. */
  lemma {:induction false} CommitEndsOption(m: Machine, at: int, end: int, j: nat, caps: seq<CapEvent>, e: Entry,
                                            stack: Stack)
    requires At(m, at, [ICommit(end - at)]) && e.pc == end && j <= |m.subject|
    ensures EndsOption(m, at, j, caps, Push(e, stack))
  {
    AtOne(m, at, ICommit(end - at));
    forall e': Entry | e'.pc == e.pc
      ensures LeavesOption(m, at, j, caps, e', stack)
    {
      JoinsStep(m, Running(at, j, caps, Push(e', stack)));
    }
  }

  lemma {:induction false} FirstAlternative(m: Machine, p: Tree, emptyq: bool, tt: Test, start: int, second: int,
                                            end: int,
                         i: nat, caps: seq<CapEvent>, stack: Stack)
    requires WellFormed(p) && i <= |m.subject| && TestHolds(tt, m.subject, i)
    requires At(m, start + 1, CodeGen(p, emptyq, tt, FULLSET))
    requires second - 1 == start + 1 + |CodeGen(p, emptyq, tt, FULLSET)|
    requires At(m, second - 1, [ICommit(end - (second - 1))]) && (emptyq ==> second == end)
    ensures Leads(m, start + 1, second - 1, i, Match(p, m.subject, i), caps, Push(Entry(second, i, |caps|), stack))
    decreases p, 4
  {
    var e := Entry(second, i, |caps|);
    var r := Match(p, m.subject, i);
    if r.Matched? && emptyq {
      CommitEndsOption(m, second - 1, end, r.next, caps + r.caps, e, stack);
    }
    GenCorrect(m, p, emptyq, tt, FULLSET, start + 1, second - 1, i, caps, Push(e, stack));
  }

  lemma {:induction false} EnterChoice(m: Machine, p: Tree, q: Tree, tt: Test, start: int, second: int, end: int,
                                       i: nat, caps: seq<CapEvent>, stack: Stack)
    requires WellFormed(p) && i <= |m.subject| && TestHolds(tt, m.subject, i)
    requires At(m, start, [IChoice(second - start)])
    requires At(m, start + 1, CodeGen(p, q.TTrue?, tt, FULLSET))
    requires second - 1 == start + 1 + |CodeGen(p, q.TTrue?, tt, FULLSET)|
    requires At(m, second - 1, [ICommit(end - (second - 1))]) && (q.TTrue? ==> second == end)
    requires Match(p, m.subject, i).NoMatch? ==> Leads(m, second, end, i, Match(q, m.subject, i), caps, stack)
    ensures Leads(m, start, end, i, Match(TChoice(p, q), m.subject, i), caps, stack)
    decreases p, 5
  {
    FirstAlternative(m, p, q.TTrue?, tt, start, second, end, i, caps, stack);
    BacktrackChoice(m, p, q, start, second, end, i, caps, stack);
  }

  lemma {:induction false} SecondAlternative(m: Machine, p: Tree, q: Tree, opt: bool, fl: Charset,
                                             second: int, end: int, i: nat, caps: seq<CapEvent>, stack: Stack)
    requires WellFormed(q) && i <= |m.subject| && TopOk(stack, |caps|)
    requires At(m, second, CodeGen(q, opt, NoInst, fl)) && end == second + |CodeGen(q, opt, NoInst, fl)|
    requires Continues(m, end, opt, fl, Match(TChoice(p, q), m.subject, i), caps, stack)
    ensures Match(p, m.subject, i).NoMatch? ==> Leads(m, second, end, i, Match(q, m.subject, i), caps, stack)
    decreases q, 4
  {
    if Match(p, m.subject, i).NoMatch? {
      GenCorrect(m, q, opt, NoInst, fl, second, end, i, caps, stack);
    }
  }

  /** A test in front of a choice only skips what the first alternative would reject. */
  lemma {:induction false} ChoiceAfterTest(m: Machine, p: Tree, q: Tree, pc: int, second: int, end: int, i: nat,
                                           caps: seq<CapEvent>, stack: Stack)
    requires WellFormed(p) && i <= |m.subject| && !GetFirst(p, FULLSET).empty
    requires At(m, pc, [CodeTestSet(GetFirst(p, FULLSET).cs, second - pc)])
    requires Match(p, m.subject, i).NoMatch? ==> Leads(m, second, end, i, Match(q, m.subject, i), caps, stack)
    requires i < |m.subject| && m.subject[i] in GetFirst(p, FULLSET).cs
             ==> Leads(m, pc + 1, end, i, Match(TChoice(p, q), m.subject, i), caps, stack)
    ensures Leads(m, pc, end, i, Match(TChoice(p, q), m.subject, i), caps, stack)
  {
    var cs := GetFirst(p, FULLSET).cs;
    TestStep(m, pc, cs, second - pc, i, caps, stack);
    if !(i < |m.subject| && m.subject[i] in cs) {
      TestRejects(p, m.subject, i);
    }
    JoinsAfterStep(m, Running(pc, i, caps, stack), Target(end, Match(TChoice(p, q), m.subject, i), caps, stack));
  }

  lemma {:induction false} PlainBacktrack(m: Machine, p: Tree, q: Tree, opt: bool, fl: Charset, c1: seq<Instr>,
                                          c2: seq<Instr>,
                                          pc: int, end: int, i: nat, caps: seq<CapEvent>, stack: Stack)
    requires WellFormed(p) && WellFormed(q) && i <= |m.subject| && TopOk(stack, |caps|)
    requires c1 == CodeGen(p, q.TTrue?, NoInst, FULLSET) && c2 == CodeGen(q, opt, NoInst, fl)
    requires At(m, pc, [IChoice(2 + |c1|)]) && At(m, pc + 1, c1)
    requires At(m, pc + 1 + |c1|, [ICommit(1 + |c2|)]) && At(m, pc + 2 + |c1|, c2)
    requires end == pc + 2 + |c1| + |c2|
    requires Continues(m, end, opt, fl, Match(TChoice(p, q), m.subject, i), caps, stack)
    ensures Leads(m, pc, end, i, Match(TChoice(p, q), m.subject, i), caps, stack)
    decreases TChoice(p, q), 0
  {
    SecondAlternative(m, p, q, opt, fl, pc + 2 + |c1|, end, i, caps, stack);
    EnterChoice(m, p, q, NoInst, pc, pc + 2 + |c1|, end, i, caps, stack);
  }

  lemma {:induction false} TestedBacktrack(m: Machine, p: Tree, q: Tree, opt: bool, fl: Charset, c1: seq<Instr>,
                                           c2: seq<Instr>,
                                           pc: int, end: int, i: nat, caps: seq<CapEvent>, stack: Stack)
    requires WellFormed(p) && WellFormed(q) && i <= |m.subject| && TopOk(stack, |caps|)
    requires !GetFirst(p, FULLSET).empty
    requires c1 == CodeGen(p, q.TTrue?, TestFor(GetFirst(p, FULLSET).cs), FULLSET) && c2 == CodeGen(q, opt, NoInst, fl)
    requires At(m, pc, [CodeTestSet(GetFirst(p, FULLSET).cs, 3 + |c1|)])
    requires At(m, pc + 1, [IChoice(2 + |c1|)]) && At(m, pc + 2, c1)
    requires At(m, pc + 2 + |c1|, [ICommit(1 + |c2|)]) && At(m, pc + 3 + |c1|, c2)
    requires end == pc + 3 + |c1| + |c2|
    requires Continues(m, end, opt, fl, Match(TChoice(p, q), m.subject, i), caps, stack)
    ensures Leads(m, pc, end, i, Match(TChoice(p, q), m.subject, i), caps, stack)
    decreases TChoice(p, q), 0
  {
    var cs := GetFirst(p, FULLSET).cs;
    TestStep(m, pc, cs, 3 + |c1|, i, caps, stack);
    SecondAlternative(m, p, q, opt, fl, pc + 3 + |c1|, end, i, caps, stack);
    if i < |m.subject| && m.subject[i] in cs {
      EnterChoice(m, p, q, TestFor(cs), pc + 1, pc + 3 + |c1|, end, i, caps, stack);
    }
    ChoiceAfterTest(m, p, q, pc, pc + 3 + |c1|, end, i, caps, stack);
  }

  lemma {:induction false} ChoiceByBacktrack(m: Machine, p: Tree, q: Tree, opt: bool, fl: Charset, c1: seq<Instr>,
                                             c2: seq<Instr>,
                                             pc: int, end: int, i: nat, caps: seq<CapEvent>, stack: Stack)
    requires WellFormed(p) && WellFormed(q) && i <= |m.subject| && TopOk(stack, |caps|)
    requires c1 == CodeGen(p, q.TTrue?, OptionalTestFor(GetFirst(p, FULLSET)), FULLSET)
             && c2 == CodeGen(q, opt, NoInst, fl)
    requires At(m, pc, ChoiceCode(GetFirst(p, FULLSET), c1, c2))
             && end == pc + |ChoiceCode(GetFirst(p, FULLSET), c1, c2)|
    requires Continues(m, end, opt, fl, Match(TChoice(p, q), m.subject, i), caps, stack)
    ensures Leads(m, pc, end, i, Match(TChoice(p, q), m.subject, i), caps, stack)
    decreases TChoice(p, q), 1
  {
    ChoiceLayout(m, pc, GetFirst(p, FULLSET), c1, c2);
    if GetFirst(p, FULLSET).empty {
      PlainBacktrack(m, p, q, opt, fl, c1, c2, pc, end, i, caps, stack);
    } else {
      TestedBacktrack(m, p, q, opt, fl, c1, c2, pc, end, i, caps, stack);
    }
  }

  lemma {:induction false} ChoiceCorrect(m: Machine, p: Tree, q: Tree, opt: bool, fl: Charset,
                                         pc: int, end: int, i: nat, caps: seq<CapEvent>, stack: Stack)
    requires WellFormed(TChoice(p, q)) && i <= |m.subject|
    requires Enters(m, CodeChoice(p, q, opt, fl), opt, fl, Match(TChoice(p, q), m.subject, i), pc, end, i, caps, stack)
    ensures Leads(m, pc, end, i, Match(TChoice(p, q), m.subject, i), caps, stack)
    decreases TChoice(p, q), 2
  {
    if TestDecidesChoice(p, q, fl) {
      ChoiceByTest(m, p, q, opt, fl, CodeGen(p, false, TestFor(GetFirst(p, FULLSET).cs), fl),
                   CodeGen(q, opt, NoInst, fl), pc, end, i, caps, stack);
    } else if opt && q.TTrue? {
      ReusedOption(m, p, q, pc, end, i, caps, stack);
    } else {
      ChoiceByBacktrack(m, p, q, opt, fl, CodeGen(p, q.TTrue?, OptionalTestFor(GetFirst(p, FULLSET)), FULLSET),
                        CodeGen(q, opt, NoInst, fl), pc, end, i, caps, stack);
    }
  }

  // -------------------------------------------------------------- sequencing

  /** The outcome of a first part followed by a second one. */
  function Then(j: nat, c: seq<CapEvent>, r: Outcome): Outcome {
    if r.Matched? then Matched(r.next, c + r.caps) else NoMatch
  }

  /** After a first part that recorded `c`, the same continuation and the same target. */
  lemma {:induction false} ThenShift(m: Machine, end: int, opt: bool, fl: Charset, j: nat, c: seq<CapEvent>, r: Outcome,
                  caps: seq<CapEvent>, stack: Stack)
    requires TopOk(stack, |caps|)
    ensures TopOk(stack, |caps + c|)
    ensures Target(end, Then(j, c, r), caps, stack) == Target(end, r, caps + c, stack)
    ensures Continues(m, end, opt, fl, Then(j, c, r), caps, stack) ==> Continues(m, end, opt, fl, r, caps + c, stack)
  {
    FailDropsCaptures(caps, c, stack);
    if r.Matched? {
      assert caps + (c + r.caps) == (caps + c) + r.caps;
    }
  }

  // -------------------------------------------------------------- repetition

  lemma {:induction false} SpanMatches(p: Tree, s: Subject, i: nat)
    requires i <= |s| && ToCharset(p).IsCharset?
    ensures Match(TRep(p), s, i) == Matched(SpanEnd(s, i, ToCharset(p).cs), [])
    decreases |s| - i
  {
    CharsetMatch(p, s, i);
    if i < |s| && s[i] in ToCharset(p).cs {
      SpanMatches(p, s, i + 1);
    }
  }

  lemma {:induction false} SpanCorrect(m: Machine, p: Tree, opt: bool, fl: Charset,
                    pc: int, end: int, i: nat, caps: seq<CapEvent>, stack: Stack)
    requires WellFormed(TRep(p)) && i <= |m.subject|
    requires Enters(m, CodeRep(p, opt, fl), opt, fl, Match(TRep(p), m.subject, i), pc, end, i, caps, stack)
             && ToCharset(p).IsCharset?
    ensures Leads(m, pc, end, i, Match(TRep(p), m.subject, i), caps, stack)
  {
    AtOne(m, pc, ISpan(ToCharset(p).cs));
    SpanMatches(p, m.subject, i);
    assert caps + [] == caps;
    JoinsStep(m, Running(pc, i, caps, stack));
  }

  lemma {:induction false} TestedLoopLayout(m: Machine, pc: int, cs: Charset, c: seq<Instr>)
    requires At(m, pc, TestedLoopCode(cs, c))
    ensures At(m, pc, [CodeTestSet(cs, 2 + |c|)]) && At(m, pc + 1, c) && At(m, pc + 1 + |c|, [IJmp(-(1 + |c|))])
  {
    AtSplit(m, pc, [CodeTestSet(cs, 2 + |c|)] + c, [IJmp(-(1 + |c|))]);
    AtSplit(m, pc, [CodeTestSet(cs, 2 + |c|)], c);
  }

  /** A tested loop whose body failed: what follows would fail as well. */
  lemma {:induction false} LoopCannotHelp(m: Machine, p: Tree, opt: bool, fl: Charset, end: int, i: nat,
                       caps: seq<CapEvent>, stack: Stack)
    requires WellFormed(TRep(p)) && TestDecidesLoop(p, fl)
    requires i < |m.subject| && m.subject[i] in GetFirst(p, FULLSET).cs
    requires Match(p, m.subject, i).NoMatch?
    requires Continues(m, end, opt, fl, Match(TRep(p), m.subject, i), caps, stack)
    ensures Joins(m, FailState(caps, stack), Target(end, Match(TRep(p), m.subject, i), caps, stack))
  {
    if HeadFail(p) {
      HeadFailExact(p, m.subject, i);
      assert false;
    }
    assert m.subject[i] !in GetFirst(p, FULLSET).cs * fl;
    JoinsSym(m, Running(end, i, caps + [], stack), FailState(caps, stack));
  }

  /** One round of a tested loop: the body matched, and the rest of the loop is known. */
  lemma {:induction false} LoopRound(m: Machine, p: Tree, pc: int, at: int, end: int, i: nat,
                                     caps: seq<CapEvent>, stack: Stack)
    requires WellFormed(TRep(p)) && i <= |m.subject| && TopOk(stack, |caps|)
    requires At(m, at, [IJmp(pc - at)]) && Match(p, m.subject, i).Matched?
    requires Leads(m, pc + 1, at, i, Match(p, m.subject, i), caps, stack)
    requires var r := Match(p, m.subject, i);
             Leads(m, pc, end, r.next, Match(TRep(p), m.subject, r.next), caps + r.caps, stack)
    ensures Leads(m, pc + 1, end, i, Match(TRep(p), m.subject, i), caps, stack)
  {
    var r := Match(p, m.subject, i);
    var goal := Target(end, Match(TRep(p), m.subject, i), caps, stack);
    RepUnroll(p, m.subject, i);
    ThenShift(m, end, false, FULLSET, r.next, r.caps, Match(TRep(p), m.subject, r.next), caps, stack);
    AtOne(m, at, IJmp(pc - at));
    JoinsAfterStep(m, Running(at, r.next, caps + r.caps, stack), goal);
    JoinsTrans(m, Running(pc + 1, i, caps, stack), Target(at, r, caps, stack), goal);
  }

  /** A loop that is skipped because its body would be rejected. */
  lemma {:induction false} LoopSkipped(m: Machine, p: Tree, end: int, i: nat, caps: seq<CapEvent>, stack: Stack)
    requires WellFormed(TRep(p)) && i <= |m.subject|
    requires HeadFail(p) || !GetFirst(p, FULLSET).empty
    requires !(i < |m.subject| && m.subject[i] in GetFirst(p, FULLSET).cs)
    ensures Leads(m, end, end, i, Match(TRep(p), m.subject, i), caps, stack)
  {
    TestRejects(p, m.subject, i);
    RepUnroll(p, m.subject, i);
    assert caps + [] == caps;
    JoinsRefl(m, Running(end, i, caps, stack));
  }

  /** A test in front of a loop only skips what the body would reject. */
  lemma {:induction false} LoopAfterTest(m: Machine, p: Tree, pc: int, end: int, i: nat,
                                         caps: seq<CapEvent>, stack: Stack)
    requires WellFormed(TRep(p)) && i <= |m.subject| && !GetFirst(p, FULLSET).empty
    requires At(m, pc, [CodeTestSet(GetFirst(p, FULLSET).cs, end - pc)])
    requires Leads(m, pc + 1, end, i, Match(TRep(p), m.subject, i), caps, stack)
    ensures Leads(m, pc, end, i, Match(TRep(p), m.subject, i), caps, stack)
  {
    var cs := GetFirst(p, FULLSET).cs;
    TestStep(m, pc, cs, end - pc, i, caps, stack);
    if !(i < |m.subject| && m.subject[i] in cs) {
      LoopSkipped(m, p, end, i, caps, stack);
    }
    JoinsAfterStep(m, Running(pc, i, caps, stack), Target(end, Match(TRep(p), m.subject, i), caps, stack));
  }

  lemma {:induction false} TestedLoop(m: Machine, p: Tree, opt: bool, fl: Charset, pc: int, end: int, i: nat,
                                      caps: seq<CapEvent>, stack: Stack)
    requires WellFormed(TRep(p)) && TestDecidesLoop(p, fl) && i <= |m.subject| && TopOk(stack, |caps|)
    requires var cs := GetFirst(p, FULLSET).cs;
             var c := CodeGen(p, false, TestFor(cs), FULLSET);
             At(m, pc, TestedLoopCode(cs, c)) && end == pc + 2 + |c|
    requires Continues(m, end, opt, fl, Match(TRep(p), m.subject, i), caps, stack)
    ensures Leads(m, pc, end, i, Match(TRep(p), m.subject, i), caps, stack)
    decreases TRep(p), 0, |m.subject| - i
  {
    hide Match, GetFirst, HeadFail, Joins, At;
    var cs := GetFirst(p, FULLSET).cs;
    var r := Match(p, m.subject, i);
    var goal := Target(end, Match(TRep(p), m.subject, i), caps, stack);
    TestedLoopLayout(m, pc, cs, CodeGen(p, false, TestFor(cs), FULLSET));
    TestStep(m, pc, cs, end - pc, i, caps, stack);
    if i < |m.subject| && m.subject[i] in cs {
      GenCorrect(m, p, false, TestFor(cs), FULLSET, pc + 1, end - 1, i, caps, stack);
      if r.Matched? {
        RepUnroll(p, m.subject, i);
        ThenShift(m, end, opt, fl, r.next, r.caps, Match(TRep(p), m.subject, r.next), caps, stack);
        TestedLoop(m, p, opt, fl, pc, end, r.next, caps + r.caps, stack);
        LoopRound(m, p, pc, end - 1, end, i, caps, stack);
      } else {
        LoopCannotHelp(m, p, opt, fl, end, i, caps, stack);
        JoinsTrans(m, Running(pc + 1, i, caps, stack), FailState(caps, stack), goal);
      }
    } else {
      LoopSkipped(m, p, end, i, caps, stack);
    }
    JoinsAfterStep(m, Running(pc, i, caps, stack), goal);
  }

  /** The body of a loop under a choice entry, until it fails and leaves through that entry. */
  lemma {:induction false} LoopRuns(m: Machine, p: Tree, l1: int, exit: int, i: nat, caps: seq<CapEvent>, below: Stack)
    requires WellFormed(TRep(p)) && i <= |m.subject|
    requires var c := CodeGen(p, false, NoInst, FULLSET);
             At(m, l1, c) && At(m, l1 + |c|, [IPartialCommit(-|c|)])
    ensures var r := Match(TRep(p), m.subject, i);
            && r.Matched?
            && Joins(m, Running(l1, i, caps, Push(Entry(exit, i, |caps|), below)),
                     Running(exit, r.next, caps + r.caps, below))
    decreases TRep(p), 0, |m.subject| - i
  {
    hide Match, GetFirst, HeadFail, Joins;
    var c := CodeGen(p, false, NoInst, FULLSET);
    var r := Match(p, m.subject, i);
    var at := l1 + |c|;
    var stack := Push(Entry(exit, i, |caps|), below);
    RepUnroll(p, m.subject, i);
    RepMatches(p, m.subject, i);
    GenCorrect(m, p, false, NoInst, FULLSET, l1, at, i, caps, stack);
    var whole := Match(TRep(p), m.subject, i);
    var goal := Running(exit, whole.next, caps + whole.caps, below);
    if r.Matched? {
      LoopRuns(m, p, l1, exit, r.next, caps + r.caps, below);
      var rest := Match(TRep(p), m.subject, r.next);
      assert caps + (r.caps + rest.caps) == (caps + r.caps) + rest.caps;
      AtOne(m, at, IPartialCommit(-|c|));
      JoinsAfterStep(m, Running(at, r.next, caps + r.caps, stack), goal);
    } else {
      assert caps[..|caps|] == caps && caps + [] == caps;
      JoinsRefl(m, goal);
    }
    JoinsTrans(m, Running(l1, i, caps, stack), Target(at, r, caps, stack), goal);
  }

  lemma {:induction false} LoopLayout(m: Machine, pc: int, f: First, c: seq<Instr>, opt: bool)
    requires At(m, pc, LoopCode(f, c, opt))
    ensures var start := pc + if f.empty then 0 else 1;
            && (f.empty || At(m, pc, [CodeTestSet(f.cs, |c| + 3)]))
            && At(m, start, [if opt then IPartialCommit(1) else IChoice(2 + |c|)])
            && At(m, start + 1, c)
            && At(m, start + 1 + |c|, [IPartialCommit(-|c|)])
            && start + 2 + |c| == pc + |LoopCode(f, c, opt)|
  {
    var t := OptionalTest(f, |c| + 2);
    var enter := if opt then IPartialCommit(1) else IChoice(2 + |c|);
    AtSplit(m, pc, t + [enter] + c, [IPartialCommit(-|c|)]);
    AtSplit(m, pc, t + [enter], c);
    AtSplit(m, pc, t, [enter]);
  }

  /** Entering the loop, with a new choice entry or with the one of the enclosing option. */
  lemma {:induction false} EnterLoop(m: Machine, p: Tree, opt: bool, start: int, end: int, i: nat,
                                     caps: seq<CapEvent>, stack: Stack)
    requires WellFormed(TRep(p)) && i <= |m.subject| && TopOk(stack, |caps|)
    requires var c := CodeGen(p, false, NoInst, FULLSET);
             && At(m, start, [if opt then IPartialCommit(1) else IChoice(2 + |c|)])
             && At(m, start + 1, c) && At(m, start + 1 + |c|, [IPartialCommit(-|c|)])
             && end == start + 2 + |c|
    requires Continues(m, end, opt, FULLSET, Match(TRep(p), m.subject, i), caps, stack)
    ensures Leads(m, start, end, i, Match(TRep(p), m.subject, i), caps, stack)
    decreases TRep(p), 0, |m.subject| + 1
  {
    var r := Match(TRep(p), m.subject, i);
    if opt {
      AtOne(m, start, IPartialCommit(1));
      var stack' := Push(Entry(stack.top.pc, i, |caps|), stack.below);
      LoopRuns(m, p, start + 1, stack.top.pc, i, caps, stack.below);
      ByLeavingOption(m, Running(start + 1, i, caps, stack'), end, r.next, caps + r.caps, stack);
    } else {
      AtOne(m, start, IChoice(end - start));
      LoopRuns(m, p, start + 1, end, i, caps, stack);
    }
    JoinsAfterStep(m, Running(start, i, caps, stack), Target(end, r, caps, stack));
  }

  lemma {:induction false} BacktrackLoop(m: Machine, p: Tree, opt: bool, pc: int, end: int, i: nat,
                                         caps: seq<CapEvent>, stack: Stack)
    requires WellFormed(TRep(p)) && i <= |m.subject| && TopOk(stack, |caps|)
    requires var c := LoopCode(GetFirst(p, FULLSET), CodeGen(p, false, NoInst, FULLSET), opt);
             At(m, pc, c) && end == pc + |c|
    requires Continues(m, end, opt, FULLSET, Match(TRep(p), m.subject, i), caps, stack)
    ensures Leads(m, pc, end, i, Match(TRep(p), m.subject, i), caps, stack)
    decreases TRep(p), 1
  {
    hide CodeGen, At, Continues, Match, Leads;
    var f := GetFirst(p, FULLSET);
    var start := pc + if f.empty then 0 else 1;
    LoopLayout(m, pc, f, CodeGen(p, false, NoInst, FULLSET), opt);
    EnterLoop(m, p, opt, start, end, i, caps, stack);
    if !f.empty {
      LoopAfterTest(m, p, pc, end, i, caps, stack);
    }
  }

  lemma {:induction false} RepCorrect(m: Machine, p: Tree, opt: bool, fl: Charset,
                                      pc: int, end: int, i: nat, caps: seq<CapEvent>, stack: Stack)
    requires WellFormed(TRep(p)) && i <= |m.subject|
    requires Enters(m, CodeRep(p, opt, fl), opt, fl, Match(TRep(p), m.subject, i), pc, end, i, caps, stack)
    ensures Leads(m, pc, end, i, Match(TRep(p), m.subject, i), caps, stack)
    decreases TRep(p), 2
  {
    if ToCharset(p).IsCharset? {
      SpanCorrect(m, p, opt, fl, pc, end, i, caps, stack);
    } else if TestDecidesLoop(p, fl) {
      TestedLoop(m, p, opt, fl, pc, end, i, caps, stack);
    } else {
      BacktrackLoop(m, p, opt, pc, end, i, caps, stack);
    }
  }

  /** A part whose continuation promises nothing. */
  lemma {:induction false} GenPlain(m: Machine, p: Tree, tt: Test, pc: int, end: int, i: nat,
                                    caps: seq<CapEvent>, stack: Stack)
    requires WellFormed(p) && i <= |m.subject| && TestHolds(tt, m.subject, i) && TopOk(stack, |caps|)
    requires At(m, pc, CodeGen(p, false, tt, FULLSET)) && end == pc + |CodeGen(p, false, tt, FULLSET)|
    ensures Leads(m, pc, end, i, Match(p, m.subject, i), caps, stack)
    decreases p, 4
  {
    GenCorrect(m, p, false, tt, FULLSET, pc, end, i, caps, stack);
  }

  // ---------------------------------------------------------------- sequence

  /** What follows the first part of a sequence is the code of the second. */
  lemma {:induction false} SecondContinues(m: Machine, p: Tree, q: Tree, fl: Charset, mid: int, end: int,
                                           i: nat, caps: seq<CapEvent>, stack: Stack)
    requires WellFormed(p) && WellFormed(q) && i <= |m.subject| && TopOk(stack, |caps|)
    requires Match(p, m.subject, i).Matched?
    requires var r := Match(p, m.subject, i);
             && Leads(m, mid, end, r.next, Match(q, m.subject, r.next), caps + r.caps, stack)
             && Continues(m, end, false, fl, Match(q, m.subject, r.next), caps + r.caps, stack)
    ensures Continues(m, mid, false, SeqFollow(p, q, fl), Match(p, m.subject, i), caps, stack)
  {
    var r := Match(p, m.subject, i);
    var r2 := Match(q, m.subject, r.next);
    if r.next < |m.subject| && m.subject[r.next] !in SeqFollow(p, q, fl) {
      FailDropsCaptures(caps, r.caps, stack);
      if r2.Matched? {
        FirstSound(q, fl, m.subject, r.next);
        JoinsTrans(m, Running(mid, r.next, caps + r.caps, stack), Target(end, r2, caps + r.caps, stack),
                   FailState(caps + r.caps, stack));
      }
    }
  }

  /** A continuation that may leave an option is in particular a continuation. */
  lemma {:induction false} WeakerContinues(m: Machine, end: int, opt: bool, fl: Charset, r: Outcome,
                                           caps: seq<CapEvent>, stack: Stack)
    requires Continues(m, end, opt, fl, r, caps, stack)
    ensures Continues(m, end, false, fl, r, caps, stack)
  {
  }

  lemma {:induction false} SeqTestHolds(p: Tree, tt: Test, s: Subject, i: nat)
    requires i <= |s| && TestHolds(tt, s, i) && Match(p, s, i).Matched?
    ensures TestHolds(SeqTest(p, tt), s, Match(p, s, i).next)
  {
    if FixedLen(p) == 0 {
      FixedLenSound(p, s, i);
    }
  }

  lemma {:induction false} SeqCorrect(m: Machine, p: Tree, q: Tree, opt: bool, tt: Test, fl: Charset,
                                      pc: int, end: int, i: nat, caps: seq<CapEvent>, stack: Stack)
    requires Ready(m, TSeq(p, q), opt, tt, fl, pc, end, i, caps, stack)
    ensures Leads(m, pc, end, i, Match(TSeq(p, q), m.subject, i), caps, stack)
    decreases TSeq(p, q), 0
  {
    var c1 := CodeGen(p, false, tt, SeqFollow(p, q, fl));
    var mid := pc + |c1|;
    AtSplit(m, pc, c1, CodeGen(q, opt, SeqTest(p, tt), fl));
    var r := Match(p, m.subject, i);
    if r.Matched? {
      var r2 := Match(q, m.subject, r.next);
      assert Match(TSeq(p, q), m.subject, i) == Then(r.next, r.caps, r2);
      ThenShift(m, end, opt, fl, r.next, r.caps, r2, caps, stack);
      SeqTestHolds(p, tt, m.subject, i);
      GenCorrect(m, q, opt, SeqTest(p, tt), fl, mid, end, r.next, caps + r.caps, stack);
      WeakerContinues(m, end, opt, fl, r2, caps + r.caps, stack);
      SecondContinues(m, p, q, fl, mid, end, i, caps, stack);
    } else {
      JoinsRefl(m, FailState(caps, stack));
    }
    GenCorrect(m, p, false, tt, SeqFollow(p, q, fl), pc, mid, i, caps, stack);
    JoinsTrans(m, Running(pc, i, caps, stack), Target(mid, r, caps, stack),
               Target(end, Match(TSeq(p, q), m.subject, i), caps, stack));
  }

  // -------------------------------------------------------------- predicates

  lemma {:induction false} NotLayout(m: Machine, pc: int, f: First, c: seq<Instr>)
    requires At(m, pc, NotCode(f, c))
    ensures var start := pc + if f.empty then 0 else 1;
            && (f.empty || At(m, pc, [CodeTestSet(f.cs, |c| + 3)]))
            && At(m, start, [IChoice(2 + |c|)])
            && At(m, start + 1, c)
            && At(m, start + 1 + |c|, [IFailTwice])
            && start + 2 + |c| == pc + |NotCode(f, c)|
  {
    var t := OptionalTest(f, |c| + 2);
    AtSplit(m, pc, t + [IChoice(2 + |c|)] + c, [IFailTwice]);
    AtSplit(m, pc, t + [IChoice(2 + |c|)], c);
    AtSplit(m, pc, t, [IChoice(2 + |c|)]);
  }

  /** Trying the body of a negation under a choice entry. */
  lemma {:induction false} NotTries(m: Machine, p: Tree, start: int, end: int, i: nat,
                                    caps: seq<CapEvent>, stack: Stack)
    requires i <= |m.subject| && TopOk(stack, |caps|)
    requires At(m, start, [IChoice(end - start)]) && At(m, end - 1, [IFailTwice])
    requires Leads(m, start + 1, end - 1, i, Match(p, m.subject, i), caps, Push(Entry(end, i, |caps|), stack))
    ensures Leads(m, start, end, i, Match(TNot(p), m.subject, i), caps, stack)
  {
    var r := Match(p, m.subject, i);
    var inner := Push(Entry(end, i, |caps|), stack);
    var goal := Target(end, Match(TNot(p), m.subject, i), caps, stack);
    AtOne(m, start, IChoice(end - start));
    AtOne(m, end - 1, IFailTwice);
    if r.Matched? {
      FailDropsCaptures(caps, r.caps, stack);
      JoinsStep(m, Target(end - 1, r, caps, inner));
    } else {
      assert caps[..|caps|] == caps && caps + [] == caps;
      JoinsRefl(m, goal);
    }
    JoinsTrans(m, Running(start + 1, i, caps, inner), Target(end - 1, r, caps, inner), goal);
    JoinsAfterStep(m, Running(start, i, caps, stack), goal);
  }

  /** A negation whose body is rejected by the test, or decided by it. */
  lemma {:induction false} NotByTest(m: Machine, p: Tree, end: int, i: nat, caps: seq<CapEvent>, stack: Stack)
    requires WellFormed(p) && i <= |m.subject| && !GetFirst(p, FULLSET).empty
    requires !(i < |m.subject| && m.subject[i] in GetFirst(p, FULLSET).cs)
    ensures Leads(m, end, end, i, Match(TNot(p), m.subject, i), caps, stack)
  {
    TestRejects(p, m.subject, i);
    assert caps + [] == caps;
    JoinsRefl(m, Running(end, i, caps, stack));
  }

  /** A test in front of a negation only lets through what the body may accept. */
  lemma {:induction false} NotAfterTest(m: Machine, p: Tree, pc: int, end: int, i: nat,
                                        caps: seq<CapEvent>, stack: Stack)
    requires WellFormed(p) && i <= |m.subject| && !GetFirst(p, FULLSET).empty
    requires At(m, pc, [CodeTestSet(GetFirst(p, FULLSET).cs, end - pc)])
    requires i < |m.subject| && m.subject[i] in GetFirst(p, FULLSET).cs
             ==> Leads(m, pc + 1, end, i, Match(TNot(p), m.subject, i), caps, stack)
    ensures Leads(m, pc, end, i, Match(TNot(p), m.subject, i), caps, stack)
  {
    var cs := GetFirst(p, FULLSET).cs;
    TestStep(m, pc, cs, end - pc, i, caps, stack);
    if !(i < |m.subject| && m.subject[i] in cs) {
      NotByTest(m, p, end, i, caps, stack);
    }
    JoinsAfterStep(m, Running(pc, i, caps, stack), Target(end, Match(TNot(p), m.subject, i), caps, stack));
  }

  lemma {:induction false} NotHeadFail(m: Machine, p: Tree, opt: bool, fl: Charset,
                                       pc: int, end: int, i: nat, caps: seq<CapEvent>, stack: Stack)
    requires WellFormed(TNot(p)) && i <= |m.subject|
    requires Enters(m, CodeNot(p), opt, fl, Match(TNot(p), m.subject, i), pc, end, i, caps, stack) && HeadFail(p)
    ensures Leads(m, pc, end, i, Match(TNot(p), m.subject, i), caps, stack)
  {
    var f := GetFirst(p, FULLSET);
    HeadFailNotEmpty(p, FULLSET);
    AtSplit(m, pc, [CodeTestSet(f.cs, 2)], [IFail]);
    HeadFailExact(p, m.subject, i);
    if i < |m.subject| && m.subject[i] in f.cs {
      AtOne(m, pc + 1, IFail);
      JoinsStep(m, Running(pc + 1, i, caps, stack));
    }
    NotAfterTest(m, p, pc, end, i, caps, stack);
  }

  lemma {:induction false} NotByBacktrack(m: Machine, p: Tree, pc: int, end: int, i: nat,
                                      caps: seq<CapEvent>, stack: Stack)
    requires WellFormed(p) && i <= |m.subject| && TopOk(stack, |caps|)
    requires var c := NotCode(GetFirst(p, FULLSET), CodeGen(p, false, NoInst, FULLSET));
             At(m, pc, c) && end == pc + |c|
    ensures Leads(m, pc, end, i, Match(TNot(p), m.subject, i), caps, stack)
    decreases p, 5
  {
    var f := GetFirst(p, FULLSET);
    var start := pc + if f.empty then 0 else 1;
    NotLayout(m, pc, f, CodeGen(p, false, NoInst, FULLSET));
    GenPlain(m, p, NoInst, start + 1, end - 1, i, caps, Push(Entry(end, i, |caps|), stack));
    NotTries(m, p, start, end, i, caps, stack);
    if !f.empty {
      NotAfterTest(m, p, pc, end, i, caps, stack);
    }
  }

  lemma {:induction false} NotCorrect(m: Machine, p: Tree, opt: bool, fl: Charset,
                                      pc: int, end: int, i: nat, caps: seq<CapEvent>, stack: Stack)
    requires WellFormed(TNot(p)) && i <= |m.subject|
    requires Enters(m, CodeNot(p), opt, fl, Match(TNot(p), m.subject, i), pc, end, i, caps, stack)
    ensures Leads(m, pc, end, i, Match(TNot(p), m.subject, i), caps, stack)
    decreases p, 6
  {
    if HeadFail(p) {
      NotHeadFail(m, p, opt, fl, pc, end, i, caps, stack);
    } else {
      NotByBacktrack(m, p, pc, end, i, caps, stack);
    }
  }

  /** Looking ahead by matching and walking back. */
  lemma {:induction false} AndFixed(m: Machine, p: Tree, pc: int, mid: int, end: int, i: nat,
                                    caps: seq<CapEvent>, stack: Stack)
    requires i <= |m.subject| && FixedLen(p) >= 0 && !HasCaptures(p)
    requires if FixedLen(p) > 0 then At(m, mid, [IBehind(FixedLen(p))]) && end == mid + 1 else end == mid
    requires Leads(m, pc, mid, i, Match(p, m.subject, i), caps, stack)
    ensures Leads(m, pc, end, i, Match(TAnd(p), m.subject, i), caps, stack)
  {
    var r := Match(p, m.subject, i);
    var goal := Target(end, Match(TAnd(p), m.subject, i), caps, stack);
    FixedLenSound(p, m.subject, i);
    NoCapturesSound(p, m.subject, i);
    JoinsRefl(m, goal);
    if r.Matched? && FixedLen(p) > 0 {
      AtOne(m, mid, IBehind(FixedLen(p)));
      JoinsStep(m, Running(mid, r.next, caps + r.caps, stack));
    }
    JoinsTrans(m, Running(pc, i, caps, stack), Target(mid, r, caps, stack), goal);
  }

  /** Looking ahead under a choice entry. */
  lemma {:induction false} AndTries(m: Machine, p: Tree, pc: int, mid: int, i: nat,
                                    caps: seq<CapEvent>, stack: Stack)
    requires i <= |m.subject| && TopOk(stack, |caps|)
    requires At(m, pc, [IChoice(mid + 1 - pc)]) && At(m, mid, [IBackCommit(2)]) && At(m, mid + 1, [IFail])
    requires Leads(m, pc + 1, mid, i, Match(p, m.subject, i), caps, Push(Entry(mid + 1, i, |caps|), stack))
    ensures Leads(m, pc, mid + 2, i, Match(TAnd(p), m.subject, i), caps, stack)
  {
    var r := Match(p, m.subject, i);
    var inner := Push(Entry(mid + 1, i, |caps|), stack);
    var goal := Target(mid + 2, Match(TAnd(p), m.subject, i), caps, stack);
    AtOne(m, pc, IChoice(mid + 1 - pc));
    if r.Matched? {
      AtOne(m, mid, IBackCommit(2));
      assert (caps + r.caps)[..|caps|] == caps + [];
      JoinsStep(m, Running(mid, r.next, caps + r.caps, inner));
    } else {
      AtOne(m, mid + 1, IFail);
      assert caps[..|caps|] == caps;
      JoinsStep(m, Running(mid + 1, i, caps, stack));
    }
    JoinsTrans(m, Running(pc + 1, i, caps, inner), Target(mid, r, caps, inner), goal);
    JoinsAfterStep(m, Running(pc, i, caps, stack), goal);
  }

  lemma {:induction false} AndLayout(m: Machine, pc: int, c: seq<Instr>)
    requires At(m, pc, AndCode(c))
    ensures At(m, pc, [IChoice(2 + |c|)]) && At(m, pc + 1, c)
    ensures At(m, pc + 1 + |c|, [IBackCommit(2)]) && At(m, pc + 2 + |c|, [IFail])
  {
    AtSplit(m, pc, [IChoice(2 + |c|)] + c, [IBackCommit(2), IFail]);
    AtSplit(m, pc, [IChoice(2 + |c|)], c);
    assert [IBackCommit(2), IFail] == [IBackCommit(2)] + [IFail];
    AtSplit(m, pc + 1 + |c|, [IBackCommit(2)], [IFail]);
  }

  lemma {:induction false} AndByLength(m: Machine, p: Tree, tt: Test, pc: int, end: int, i: nat,
                                       caps: seq<CapEvent>, stack: Stack)
    requires WellFormed(p) && i <= |m.subject| && TestHolds(tt, m.subject, i) && TopOk(stack, |caps|)
    requires FixedLen(p) >= 0 && !HasCaptures(p)
    requires var c := CodeGen(p, false, tt, FULLSET) + if FixedLen(p) > 0 then [IBehind(FixedLen(p))] else [];
             At(m, pc, c) && end == pc + |c|
    ensures Leads(m, pc, end, i, Match(TAnd(p), m.subject, i), caps, stack)
    decreases p, 5
  {
    var c := CodeGen(p, false, tt, FULLSET);
    AtSplit(m, pc, c, if FixedLen(p) > 0 then [IBehind(FixedLen(p))] else []);
    GenPlain(m, p, tt, pc, pc + |c|, i, caps, stack);
    AndFixed(m, p, pc, pc + |c|, end, i, caps, stack);
  }

  lemma {:induction false} AndByBacktrack(m: Machine, p: Tree, tt: Test, pc: int, end: int, i: nat,
                                          caps: seq<CapEvent>, stack: Stack)
    requires WellFormed(p) && i <= |m.subject| && TestHolds(tt, m.subject, i) && TopOk(stack, |caps|)
    requires var c := AndCode(CodeGen(p, false, tt, FULLSET));
             At(m, pc, c) && end == pc + |c|
    ensures Leads(m, pc, end, i, Match(TAnd(p), m.subject, i), caps, stack)
    decreases p, 5
  {
    AndLayout(m, pc, CodeGen(p, false, tt, FULLSET));
    GenPlain(m, p, tt, pc + 1, end - 2, i, caps, Push(Entry(end - 1, i, |caps|), stack));
    AndTries(m, p, pc, end - 2, i, caps, stack);
  }

  lemma {:induction false} AndCorrect(m: Machine, p: Tree, opt: bool, tt: Test, fl: Charset,
                                      pc: int, end: int, i: nat, caps: seq<CapEvent>, stack: Stack)
    requires WellFormed(p) && i <= |m.subject| && TestHolds(tt, m.subject, i)
    requires Enters(m, CodeAnd(p, tt), opt, fl, Match(TAnd(p), m.subject, i), pc, end, i, caps, stack)
    ensures Leads(m, pc, end, i, Match(TAnd(p), m.subject, i), caps, stack)
    decreases p, 6
  {
    if 0 <= FixedLen(p) <= MAXBEHIND && !HasCaptures(p) {
      AndByLength(m, p, tt, pc, end, i, caps, stack);
    } else {
      AndByBacktrack(m, p, tt, pc, end, i, caps, stack);
    }
  }

  lemma {:induction false} BehindCorrect(m: Machine, p: Tree, n: nat, pc: int, end: int, i: nat,
                                         caps: seq<CapEvent>, stack: Stack)
    requires WellFormed(TBehind(p, n)) && i <= |m.subject| && TopOk(stack, |caps|)
    requires At(m, pc, CodeBehind(p, n)) && end == pc + |CodeBehind(p, n)|
    ensures Leads(m, pc, end, i, Match(TBehind(p, n), m.subject, i), caps, stack)
    decreases p, 5
  {
    var at := pc + if n > 0 then 1 else 0;
    AtSplit(m, pc, if n > 0 then [IBehind(n)] else [], CodeGen(p, false, NoInst, FULLSET));
    if n <= i {
      GenPlain(m, p, NoInst, at, end, i - n, caps, stack);
    }
    BehindSteps(m, p, n, pc, at, end, i, caps, stack);
  }

  lemma {:induction false} BehindTarget(p: Tree, n: nat, s: Subject, end: int, i: nat,
                                        caps: seq<CapEvent>, stack: Stack)
    requires WellFormed(TBehind(p, n)) && n <= i <= |s|
    ensures Target(end, Match(p, s, i - n), caps, stack) == Target(end, Match(TBehind(p, n), s, i), caps, stack)
  {
    FixedLenSound(p, s, i - n);
    NoCapturesSound(p, s, i - n);
  }

  /** Walking back, and matching forward to where it started. */
  lemma {:induction false} BehindSteps(m: Machine, p: Tree, n: nat, pc: int, at: int, end: int, i: nat,
                                       caps: seq<CapEvent>, stack: Stack)
    requires WellFormed(TBehind(p, n)) && i <= |m.subject|
    requires if n > 0 then At(m, pc, [IBehind(n)]) && at == pc + 1 else at == pc
    requires n <= i ==> Leads(m, at, end, i - n, Match(p, m.subject, i - n), caps, stack)
    ensures Leads(m, pc, end, i, Match(TBehind(p, n), m.subject, i), caps, stack)
  {
    var goal := Target(end, Match(TBehind(p, n), m.subject, i), caps, stack);
    if n <= i {
      BehindTarget(p, n, m.subject, end, i, caps, stack);
    }
    if n > 0 {
      AtOne(m, pc, IBehind(n));
      JoinsRefl(m, FailState(caps, stack));
      JoinsAfterStep(m, Running(pc, i, caps, stack), goal);
    }
  }

  // ---------------------------------------------------------------- captures

  /** What follows the body of a capture is what follows the capture. */
  lemma {:induction false} ContinuesCapture(m: Machine, capture: Tree, opt: bool, fl: Charset, mid: int, i: nat,
                                            before: seq<CapEvent>, caps: seq<CapEvent>, stack: Stack)
    requires capture.TCapture? && i <= |m.subject| && TopOk(stack, |caps|)
    requires Continues(m, mid + 1, opt, fl, Match(capture, m.subject, i), caps, stack)
    requires var r := Match(capture.body, m.subject, i);
             r.Matched? ==> Step(m, Running(mid, r.next, before + r.caps, stack)) ==
                            Target(mid + 1, Match(capture, m.subject, i), caps, stack)
    requires FailState(before, stack) == FailState(caps, stack)
    ensures Continues(m, mid, false, fl, Match(capture.body, m.subject, i), before, stack)
  {
    var r := Match(capture.body, m.subject, i);
    if r.Matched? && r.next < |m.subject| && m.subject[r.next] !in fl {
      JoinsAfterStep(m, Running(mid, r.next, before + r.caps, stack), FailState(caps, stack));
    }
  }

  lemma {:induction false} FullCaptureStep(m: Machine, kind: nat, key: nat, p: Tree, mid: int, i: nat,
                                           caps: seq<CapEvent>, stack: Stack)
    requires i <= |m.subject| && FixedLen(p) >= 0 && !HasCaptures(p) && Match(p, m.subject, i).Matched?
    requires At(m, mid, [IFullCapture(kind, key, FixedLen(p))])
    ensures var r := Match(p, m.subject, i);
            Step(m, Running(mid, r.next, caps + r.caps, stack)) ==
            Target(mid + 1, Match(TCapture(kind, key, p), m.subject, i), caps, stack)
  {
    var r := Match(p, m.subject, i);
    AtOne(m, mid, IFullCapture(kind, key, FixedLen(p)));
    FixedLenSound(p, m.subject, i);
    NoCapturesSound(p, m.subject, i);
    assert [OpenCap(kind, key, i)] + [] + [CloseCap(r.next)] == [OpenCap(kind, key, i), CloseCap(r.next)];
    assert caps + [] == caps;
  }

  lemma {:induction false} CloseCaptureStep(m: Machine, kind: nat, key: nat, p: Tree, mid: int, i: nat,
                                            caps: seq<CapEvent>, stack: Stack)
    requires i <= |m.subject| && Match(p, m.subject, i).Matched?
    requires At(m, mid, [ICloseCapture])
    ensures var r := Match(p, m.subject, i);
            Step(m, Running(mid, r.next, (caps + [OpenCap(kind, key, i)]) + r.caps, stack)) ==
            Target(mid + 1, Match(TCapture(kind, key, p), m.subject, i), caps, stack)
  {
    var r := Match(p, m.subject, i);
    var open := [OpenCap(kind, key, i)];
    AtOne(m, mid, ICloseCapture);
    assert caps + (open + r.caps + [CloseCap(r.next)]) == ((caps + open) + r.caps) + [CloseCap(r.next)];
  }

  /** After the body of a capture, one step records it. */
  lemma {:induction false} CaptureEnds(m: Machine, capture: Tree, pc: int, mid: int, i: nat,
                                       before: seq<CapEvent>, caps: seq<CapEvent>, stack: Stack)
    requires capture.TCapture? && i <= |m.subject|
    requires var r := Match(capture.body, m.subject, i);
             r.Matched? ==> Step(m, Running(mid, r.next, before + r.caps, stack)) ==
                            Target(mid + 1, Match(capture, m.subject, i), caps, stack)
    requires FailState(before, stack) == FailState(caps, stack)
    requires Leads(m, pc, mid, i, Match(capture.body, m.subject, i), before, stack)
    ensures Joins(m, Running(pc, i, before, stack), Target(mid + 1, Match(capture, m.subject, i), caps, stack))
  {
    var r := Match(capture.body, m.subject, i);
    var goal := Target(mid + 1, Match(capture, m.subject, i), caps, stack);
    if r.Matched? {
      JoinsStep(m, Running(mid, r.next, before + r.caps, stack));
    } else {
      JoinsRefl(m, goal);
    }
    JoinsTrans(m, Running(pc, i, before, stack), Target(mid, r, before, stack), goal);
  }

  lemma {:induction false} ShortCapture(m: Machine, kind: nat, key: nat, p: Tree, opt: bool, tt: Test, fl: Charset,
                                        pc: int, end: int, i: nat, caps: seq<CapEvent>, stack: Stack)
    requires WellFormed(p) && i <= |m.subject| && TestHolds(tt, m.subject, i) && TopOk(stack, |caps|)
    requires FixedLen(p) >= 0 && !HasCaptures(p)
    requires var c := CodeGen(p, false, tt, fl);
             At(m, pc, c + [IFullCapture(kind, key, FixedLen(p))]) && end == pc + 1 + |c|
    requires Continues(m, end, opt, fl, Match(TCapture(kind, key, p), m.subject, i), caps, stack)
    ensures Leads(m, pc, end, i, Match(TCapture(kind, key, p), m.subject, i), caps, stack)
    decreases p, 5
  {
    AtSplit(m, pc, CodeGen(p, false, tt, fl), [IFullCapture(kind, key, FixedLen(p))]);
    if Match(p, m.subject, i).Matched? {
      FullCaptureStep(m, kind, key, p, end - 1, i, caps, stack);
    }
    ContinuesCapture(m, TCapture(kind, key, p), opt, fl, end - 1, i, caps, caps, stack);
    GenCorrect(m, p, false, tt, fl, pc, end - 1, i, caps, stack);
    CaptureEnds(m, TCapture(kind, key, p), pc, end - 1, i, caps, caps, stack);
  }

  lemma {:induction false} LongCapture(m: Machine, kind: nat, key: nat, p: Tree, opt: bool, tt: Test, fl: Charset,
                                       pc: int, end: int, i: nat, caps: seq<CapEvent>, stack: Stack)
    requires WellFormed(p) && i <= |m.subject| && TestHolds(tt, m.subject, i) && TopOk(stack, |caps|)
    requires var c := CodeGen(p, false, tt, fl);
             At(m, pc, [IOpenCapture(kind, key)] + c + [ICloseCapture]) && end == pc + 2 + |c|
    requires Continues(m, end, opt, fl, Match(TCapture(kind, key, p), m.subject, i), caps, stack)
    ensures Leads(m, pc, end, i, Match(TCapture(kind, key, p), m.subject, i), caps, stack)
    decreases p, 5
  {
    var c := CodeGen(p, false, tt, fl);
    var before := caps + [OpenCap(kind, key, i)];
    AtSplit(m, pc, [IOpenCapture(kind, key)] + c, [ICloseCapture]);
    AtSplit(m, pc, [IOpenCapture(kind, key)], c);
    AtOne(m, pc, IOpenCapture(kind, key));
    hide CodeGen, At, Continues, Leads;
    FailDropsCaptures(caps, [OpenCap(kind, key, i)], stack);
    if Match(p, m.subject, i).Matched? {
      CloseCaptureStep(m, kind, key, p, end - 1, i, caps, stack);
    }
    ContinuesCapture(m, TCapture(kind, key, p), opt, fl, end - 1, i, before, caps, stack);
    GenCorrect(m, p, false, tt, fl, pc + 1, end - 1, i, before, stack);
    CaptureEnds(m, TCapture(kind, key, p), pc + 1, end - 1, i, before, caps, stack);
    JoinsAfterStep(m, Running(pc, i, caps, stack),
      Target(end, Match(TCapture(kind, key, p), m.subject, i), caps, stack));
  }

  lemma {:induction false} CaptureCorrect(m: Machine, kind: nat, key: nat, p: Tree, opt: bool, tt: Test, fl: Charset,
                                          pc: int, end: int, i: nat, caps: seq<CapEvent>, stack: Stack)
    requires WellFormed(p) && i <= |m.subject| && TestHolds(tt, m.subject, i)
    requires Enters(m, CodeCapture(kind, key, p, tt, fl), opt, fl, Match(TCapture(kind, key, p), m.subject, i),
                    pc, end, i, caps, stack)
    ensures Leads(m, pc, end, i, Match(TCapture(kind, key, p), m.subject, i), caps, stack)
    decreases p, 6
  {
    if 0 <= FixedLen(p) <= MAXOFF && !HasCaptures(p) {
      ShortCapture(m, kind, key, p, opt, tt, fl, pc, end, i, caps, stack);
    } else {
      LongCapture(m, kind, key, p, opt, tt, fl, pc, end, i, caps, stack);
    }
  }

  // ------------------------------------------------------------ main theorems

  /** The code of every tree leads where the meaning of the tree says. */
  lemma {:induction false} GenCorrect(m: Machine, t: Tree, opt: bool, tt: Test, fl: Charset,
                                      pc: int, end: int, i: nat, caps: seq<CapEvent>, stack: Stack)
    requires Ready(m, t, opt, tt, fl, pc, end, i, caps, stack)
    ensures Leads(m, pc, end, i, Match(t, m.subject, i), caps, stack)
    decreases t, 3
  {
    match t
    case TChoice(p, q) => ChoiceCorrect(m, p, q, opt, fl, pc, end, i, caps, stack);
    case TRep(p) => RepCorrect(m, p, opt, fl, pc, end, i, caps, stack);
    case TSeq(p, q) => SeqCorrect(m, p, q, opt, tt, fl, pc, end, i, caps, stack);
    case TNot(p) => NotCorrect(m, p, opt, fl, pc, end, i, caps, stack);
    case TAnd(p) => AndCorrect(m, p, opt, tt, fl, pc, end, i, caps, stack);
    case TBehind(p, n) => BehindCorrect(m, p, n, pc, end, i, caps, stack);
    case TCapture(kind, key, p) => CaptureCorrect(m, kind, key, p, opt, tt, fl, pc, end, i, caps, stack);
    case TTrue(_) =>
      assert caps + [] == caps;
      JoinsRefl(m, Running(pc, i, caps, stack));
    case _ => CharCorrect(m, t, opt, tt, fl, pc, end, i, caps, stack);
  }

  /** The state in which `match` starts the machine at position `i` of a subject. */
  function Initial(i: nat): State {
    Running(0, i, [], Push(Entry(GIVEUP, i, 0), Bottom))
  }

  function Answer(r: Outcome): State {
    match r
    case NoMatch => GaveUp
    case Matched(j, c) => Success(j, c)
  }

  /** Compiling a well-formed pattern and running the machine yields exactly the
      meaning of the pattern: the same verdict, end position and captures. */
  lemma {:induction false} CompileCorrect(t: Tree, s: Subject, i: nat) returns (n: nat)
    requires WellFormed(t) && i <= |s|
    ensures forall k: nat :: k >= n ==> Steps(Machine(Compile(t), s), Initial(i), k) == Answer(Match(t, s, i))
  {
    var m := Machine(Compile(t), s);
    var c := CodeGen(t, false, NoInst, FULLSET);
    var stack := Push(Entry(GIVEUP, i, 0), Bottom);
    var r := Match(t, s, i);
    assert At(m, 0, c + [IEnd]);
    AtSplit(m, 0, c, [IEnd]);
    AtOne(m, |c|, IEnd);
    GenCorrect(m, t, false, NoInst, FULLSET, 0, |c|, i, [], stack);
    var mid := Target(|c|, r, [], stack);
    if r.Matched? {
      assert [] + r.caps == r.caps;
    }
    JoinsStep(m, mid);
    JoinsTrans(m, Initial(i), mid, Answer(r));
    n := JoinsHalted(m, Initial(i), Answer(r));
  }
}
