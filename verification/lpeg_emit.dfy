/** LPeg's compiler as it works in place: it appends instructions to the code
    of the pattern and patches the offsets of the jumps once it knows where
    they go.  The code that it leaves is the code that CodeGen describes. */
module LpegEmit {
  import opened LpegTree
  import opened LpegAnalysis
  import opened LpegVm
  import opened LpegCode

  const NOINST := -1

  predicate HasOffset(x: Instr) {
    x.ITestAny? || x.ITestChar? || x.ITestSet? || x.IChoice? || x.IJmp? || x.ICommit?
    || x.IPartialCommit? || x.IBackCommit?
  }

  function WithOffset(x: Instr, off: int): (r: Instr)
    requires HasOffset(x)
    ensures HasOffset(r) && r.offset == off
  {
    match x
    case ITestAny(_) => ITestAny(off)
    case ITestChar(c, _) => ITestChar(c, off)
    case ITestSet(cs, _) => ITestSet(cs, off)
    case IChoice(_) => IChoice(off)
    case IJmp(_) => IJmp(off)
    case ICommit(_) => ICommit(off)
    case IPartialCommit(_) => IPartialCommit(off)
    case IBackCommit(_) => IBackCommit(off)
  }

  /** Do the code and the index `tt` of a test in it stand for the test `test`? */
  predicate TestAt(code: seq<Instr>, tt: int, test: Test) {
    match test
    case NoInst => tt < 0
    case Dominated(x) => 0 <= tt < |code| && HasOffset(x) && HasOffset(code[tt]) && WithOffset(code[tt], x.offset) == x
  }

  /** A test whose offset is not known yet. */
  function EmptyTest(f: First): seq<Instr> {
    if f.empty then [] else [CodeTestSet(f.cs, 0)]
  }

  // Concatenations, as appending leaves them and as the shapes of LpegCode write them.

  lemma {:induction false} Join2(s: seq<Instr>, a: seq<Instr>, b: seq<Instr>)
    ensures s + a + b == s + (a + b)
  {
  }

  lemma {:induction false} Join3(s: seq<Instr>, a: seq<Instr>, b: seq<Instr>, c: seq<Instr>)
    ensures s + a + b + c == s + (a + b + c)
  {
  }

  lemma {:induction false} Join4(s: seq<Instr>, a: seq<Instr>, b: seq<Instr>, c: seq<Instr>, d: seq<Instr>)
    ensures s + a + b + c + d == s + (a + b + c + d)
  {
    Join3(s, a, b, c);
    Join2(s, a + b + c, d);
  }

  lemma {:induction false} Join5(s: seq<Instr>, a: seq<Instr>, b: seq<Instr>, c: seq<Instr>, d: seq<Instr>,
                                 e: seq<Instr>)
    ensures s + a + b + c + d + e == s + (a + b + c + d + e)
  {
    Join4(s, a, b, c, d);
    Join2(s, a + b + c + d, e);
  }

  lemma {:induction false} NoJump(a: seq<Instr>)
    ensures a + [] == a
  {
  }

  lemma {:induction false} Patch0(a: seq<Instr>, x: Instr, y: Instr)
    ensures (a + [x])[|a| := y] == a + [y]
  {
  }

  lemma {:induction false} Patch1(a: seq<Instr>, x: Instr, b: seq<Instr>, y: Instr)
    ensures (a + [x] + b)[|a| := y] == a + [y] + b
  {
  }

  lemma {:induction false} Patch2(a: seq<Instr>, x: Instr, b: seq<Instr>, c: seq<Instr>, y: Instr)
    ensures (a + [x] + b + c)[|a| := y] == a + [y] + b + c
  {
    Patch1(a, x, b + c, y);
    Join2(a + [x], b, c);
    Join2(a + [y], b, c);
  }

  lemma {:induction false} Patch3(a: seq<Instr>, x: Instr, b: seq<Instr>, c: seq<Instr>, d: seq<Instr>, y: Instr)
    ensures (a + [x] + b + c + d)[|a| := y] == a + [y] + b + c + d
  {
    Patch1(a, x, b + c + d, y);
    Join3(a + [x], b, c, d);
    Join3(a + [y], b, c, d);
  }

  /** Patching the test, if there is one, in front of three pieces of code. */
  lemma {:induction false} PatchTest(a: seq<Instr>, f: First, b: seq<Instr>, c: seq<Instr>, d: seq<Instr>, n: nat)
    requires n == |b| + |c| + |d|
    ensures !f.empty ==>
              (a + EmptyTest(f) + b + c + d)[|a| := CodeTestSet(f.cs, n + 1)] == a + OptionalTest(f, n) + b + c + d
    ensures f.empty ==> EmptyTest(f) == OptionalTest(f, n)
  {
    if !f.empty {
      Patch3(a, CodeTestSet(f.cs, 0), b, c, d, CodeTestSet(f.cs, n + 1));
    }
  }

  /** The code of a loop, patched at its end, at its choice unless it reuses one, and at its test. */
  lemma {:induction false} LoopPatched(start: seq<Instr>, f: First, c: seq<Instr>, opt: bool)
    ensures var body := start + EmptyTest(f) + [if opt then IPartialCommit(1) else IChoice(0)] + c;
            var closed := (body + [IPartialCommit(0)])[|body| := IPartialCommit(-|c|)];
            var entered := if opt then closed else closed[|start + EmptyTest(f)| := IChoice(2 + |c|)];
            (if f.empty then entered else entered[|start| := CodeTestSet(f.cs, |c| + 3)]) == start + LoopCode(f, c, opt)
  {
    var enter0 := if opt then IPartialCommit(1) else IChoice(0);
    var enter1 := if opt then IPartialCommit(1) else IChoice(2 + |c|);
    var again := [IPartialCommit(-|c|)];
    Patch0(start + EmptyTest(f) + [enter0] + c, IPartialCommit(0), again[0]);
    if !opt {
      Patch2(start + EmptyTest(f), IChoice(0), c, again, enter1);
    }
    PatchTest(start, f, [enter1], c, again, |c| + 2);
    Join4(start, OptionalTest(f, |c| + 2), [enter1], c, again);
  }

  lemma {:induction false} TestedOption(start: seq<Instr>, cs: Charset, c1: seq<Instr>, c2: seq<Instr>)
    ensures start + [CodeTestSet(cs, |c1| + 1)] + c1 + c2 == start + TestedChoiceCode(cs, c1, c2, true)
  {
    Join3(start, [CodeTestSet(cs, |c1| + 1)], c1, c2);
    NoJump([CodeTestSet(cs, |c1| + 1)] + c1);
  }

  lemma {:induction false} TestedAlternatives(start: seq<Instr>, cs: Charset, c1: seq<Instr>, c2: seq<Instr>)
    ensures var first := start + [CodeTestSet(cs, |c1| + 2)] + c1;
            (first + [IJmp(0)] + c2)[|first| := IJmp(1 + |c2|)] == start + TestedChoiceCode(cs, c1, c2, false)
  {
    Patch1(start + [CodeTestSet(cs, |c1| + 2)] + c1, IJmp(0), c2, IJmp(1 + |c2|));
    Join4(start, [CodeTestSet(cs, |c1| + 2)], c1, [IJmp(1 + |c2|)], c2);
  }

  lemma {:induction false} Alternatives(start: seq<Instr>, f: First, c1: seq<Instr>, c2: seq<Instr>)
    ensures var first := start + OptionalTest(f, |c1| + 2) + [IChoice(2 + |c1|)] + c1;
            (first + [ICommit(0)] + c2)[|first| := ICommit(1 + |c2|)] == start + ChoiceCode(f, c1, c2)
  {
    var choice, head := [IChoice(2 + |c1|)], OptionalTest(f, |c1| + 2);
    Patch1(start + head + choice + c1, ICommit(0), c2, ICommit(1 + |c2|));
    Join5(start, head, choice, c1, [ICommit(1 + |c2|)], c2);
  }

  lemma {:induction false} NotPatched(start: seq<Instr>, f: First, c: seq<Instr>)
    ensures var code := start + EmptyTest(f) + [IChoice(2 + |c|)] + c + [IFailTwice];
            (if f.empty then code else code[|start| := CodeTestSet(f.cs, |c| + 3)]) == start + NotCode(f, c)
  {
    PatchTest(start, f, [IChoice(2 + |c|)], c, [IFailTwice], |c| + 2);
    Join4(start, OptionalTest(f, |c| + 2), [IChoice(2 + |c|)], c, [IFailTwice]);
  }

  lemma {:induction false} NotAtOncePatched(start: seq<Instr>, f: First)
    ensures var code := start + EmptyTest(f) + [IFail];
            (if f.empty then code else code[|start| := CodeTestSet(f.cs, 2)]) == start + (OptionalTest(f, 1) + [IFail])
  {
    if !f.empty {
      Patch1(start, CodeTestSet(f.cs, 0), [IFail], CodeTestSet(f.cs, 2));
    }
    Join2(start, OptionalTest(f, 1), [IFail]);
  }

  class CompileState {
    var code: seq<Instr>

    constructor ()
      ensures code == []
    {
      code := [];
    }

    method AddInstruction(x: Instr) returns (at: int)
      modifies this
      ensures code == old(code) + [x] && at == |old(code)|
    {
      at := |code|;
      code := code + [x];
    }

    /** Make the instruction at `at`, if there is one, jump to `there`. */
    method JumpToThere(at: int, there: int)
      requires at >= 0 ==> at < |code| && HasOffset(code[at])
      modifies this
      ensures code == if at >= 0 then old(code)[at := WithOffset(old(code[at]), there - at)] else old(code)
    {
      if at >= 0 {
        code := code[at := WithOffset(code[at], there - at)];
      }
    }

    method JumpToHere(at: int)
      requires at >= 0 ==> at < |code| && HasOffset(code[at])
      modifies this
      ensures code == if at >= 0 then old(code)[at := WithOffset(old(code[at]), |old(code)| - at)] else old(code)
    {
      JumpToThere(at, |code|);
    }

    method EmitChar(c: Byte, tt: int, ghost test: Test)
      requires TestAt(code, tt, test)
      modifies this
      ensures code == old(code) + [CodeChar(c, test)]
    {
      if tt >= 0 && code[tt].ITestChar? && code[tt].c == c {
        var _ := AddInstruction(IAny);
      } else {
        var _ := AddInstruction(IChar(c));
      }
    }

    method EmitCharset(cs: Charset, tt: int, ghost test: Test)
      requires TestAt(code, tt, test)
      modifies this
      ensures code == old(code) + [CodeCharset(cs, test)]
    {
      match CharsetType(cs)
      case SingletonKind(c) => EmitChar(c, tt, test);
      case GeneralKind =>
        if tt >= 0 && code[tt].ITestSet? && code[tt].cs == cs {
          var _ := AddInstruction(IAny);
        } else {
          var _ := AddInstruction(ISet(cs));
        }
      case FullKind => var _ := AddInstruction(IAny);
      case EmptyKind => var _ := AddInstruction(IFail);
    }

    /** Append a test, unless the pattern may match nothing; its offset comes later. */
    method EmitTestSet(cs: Charset, e: bool) returns (at: int)
      modifies this
      ensures code == old(code) + EmptyTest(First(cs, e))
      ensures at == if e then NOINST else |old(code)|
    {
      if e {
        at := NOINST;
      } else {
        match CharsetType(cs)
        case EmptyKind => at := AddInstruction(IJmp(0));
        case FullKind => at := AddInstruction(ITestAny(0));
        case SingletonKind(c) => at := AddInstruction(ITestChar(c, 0));
        case GeneralKind => at := AddInstruction(ITestSet(cs, 0));
      }
    }

    method Emit(t: Tree, opt: bool, tt: int, fl: Charset, ghost test: Test)
      requires TestAt(code, tt, test)
      modifies this
      ensures code == old(code) + CodeGen(t, opt, test, fl)
      decreases t, 1
    {
      match t
      case TChar(c) => EmitChar(c, tt, test);
      case TAny(_) => var _ := AddInstruction(IAny);
      case TSet(cs) => EmitCharset(cs, tt, test);
      case TTrue(_) =>
      case TFalse(_) => var _ := AddInstruction(IFail);
      case TChoice(p, q) => EmitChoice(p, q, opt, fl);
      case TRep(p) => EmitRep(p, opt, fl);
      case TBehind(p, n) => EmitBehind(p, n);
      case TNot(p) => EmitNot(p);
      case TAnd(p) => EmitAnd(p, tt, test);
      case TCapture(kind, key, p) => EmitCapture(kind, key, p, tt, fl, test);
      case TSeq(p, q) =>
        var tt2 := EmitFirstOfSeq(p, q, tt, fl, test);
        Emit(q, opt, tt2, fl, SeqTest(p, test));
        Join2(old(code), CodeGen(p, false, test, SeqFollow(p, q, fl)), CodeGen(q, opt, SeqTest(p, test), fl));
    }

    method EmitBehind(p: Tree, n: nat)
      modifies this
      ensures code == old(code) + CodeBehind(p, n)
      decreases TBehind(p, n), 0
    {
      ghost var start, c := old(code), CodeGen(p, false, NoInst, FULLSET);
      if n > 0 {
        var _ := AddInstruction(IBehind(n));
        Join2(start, [IBehind(n)], c);
      }
      Emit(p, false, NOINST, FULLSET, NoInst);
    }

    method EmitFirstOfSeq(p: Tree, q: Tree, tt: int, fl: Charset, ghost test: Test) returns (tt2: int)
      requires TestAt(code, tt, test)
      modifies this
      ensures code == old(code) + CodeGen(p, false, test, SeqFollow(p, q, fl))
      ensures TestAt(code, tt2, SeqTest(p, test))
      decreases p, 2
    {
      if NeedFollow(p) {
        Emit(p, false, tt, GetFirst(q, fl).cs, test);
      } else {
        Emit(p, false, tt, FULLSET, test);
      }
      tt2 := if FixedLen(p) != 0 then NOINST else tt;
    }

    method EmitChoice(p: Tree, q: Tree, opt: bool, fl: Charset)
      modifies this
      ensures code == old(code) + CodeChoice(p, q, opt, fl)
      decreases TChoice(p, q), 0
    {
      var emptyq := q.TTrue?;
      var f1 := GetFirst(p, FULLSET);
      if HeadFail(p) || (!f1.empty && Disjoint(f1.cs, GetFirst(q, fl).cs)) {
        EmitTestedChoice(p, q, opt, fl, emptyq, f1);
      } else if opt && emptyq {
        EmitOption(p);
      } else {
        EmitBacktrackChoice(p, q, opt, fl, emptyq, f1);
      }
    }

    method BothToHere(a: nat, b: int)
      requires a < |code| && HasOffset(code[a])
      requires b >= 0 ==> b < |code| && HasOffset(code[b]) && b != a
      modifies this
      ensures var first := old(code)[a := WithOffset(old(code[a]), |old(code)| - a)];
              code == if b >= 0 then first[b := WithOffset(old(code[b]), |old(code)| - b)] else first
    {
      JumpToHere(a);
      JumpToHere(b);
    }

    /** An optional pattern inside another one: failing goes on behind it. */
    method EmitOption(p: Tree)
      modifies this
      ensures code == old(code) + ([IPartialCommit(1)] + CodeGen(p, true, NoInst, FULLSET))
      decreases p, 3
    {
      var pc := AddInstruction(IPartialCommit(0));
      Patch0(old(code), IPartialCommit(0), IPartialCommit(1));
      JumpToHere(pc);
      Emit(p, true, NOINST, FULLSET, NoInst);
      hide CodeGen;
      Join2(old(code), [IPartialCommit(1)], CodeGen(p, true, NoInst, FULLSET));
    }

    method EmitTestedChoice(p: Tree, q: Tree, opt: bool, fl: Charset, emptyq: bool, f: First)
      requires f == GetFirst(p, FULLSET) && emptyq == q.TTrue?
      modifies this
      ensures code == old(code) + TestedChoiceCode(f.cs, CodeGen(p, false, TestFor(f.cs), fl),
              CodeGen(q, opt, NoInst, fl), emptyq)
      decreases TChoice(p, q), -1
    {
      hide CodeGen, GetFirst, TestedChoiceCode;
      var jmp := EmitTested(p, fl, emptyq, f);
      Emit(q, opt, NOINST, fl, NoInst);
      ghost var c1, c2 := CodeGen(p, false, TestFor(f.cs), fl), CodeGen(q, opt, NoInst, fl);
      if emptyq {
        TestedOption(old(code), f.cs, c1, c2);
      } else {
        TestedAlternatives(old(code), f.cs, c1, c2);
      }
      JumpToHere(jmp);
    }

    /** The first alternative behind its test, and the jump over the second if there is code for it. */
    method EmitTested(p: Tree, fl: Charset, emptyq: bool, f: First) returns (jmp: int)
      requires f == GetFirst(p, FULLSET)
      modifies this
      ensures var c1 := CodeGen(p, false, TestFor(f.cs), fl);
              && (emptyq ==> jmp == NOINST && code == old(code) + [CodeTestSet(f.cs, |c1| + 1)] + c1)
              && (!emptyq ==> jmp == |old(code)| + 1 + |c1|
                              && code == old(code) + [CodeTestSet(f.cs, |c1| + 2)] + c1 + [IJmp(0)])
      decreases p, 2
    {
      var test := EmitTestSet(f.cs, false);
      jmp := NOINST;
      Emit(p, false, test, fl, TestFor(f.cs));
      ghost var c1 := CodeGen(p, false, TestFor(f.cs), fl);
      if !emptyq {
        jmp := AddInstruction(IJmp(0));
        Patch2(old(code), CodeTestSet(f.cs, 0), c1, [IJmp(0)], CodeTestSet(f.cs, |c1| + 2));
      } else {
        Patch1(old(code), CodeTestSet(f.cs, 0), c1, CodeTestSet(f.cs, |c1| + 1));
      }
      JumpToHere(test);
    }

    method EmitBacktrackChoice(p: Tree, q: Tree, opt: bool, fl: Charset, emptyq: bool, f: First)
      requires f == GetFirst(p, FULLSET) && emptyq == q.TTrue?
      modifies this
      ensures code == old(code) + ChoiceCode(f, CodeGen(p, emptyq, OptionalTestFor(f), FULLSET),
              CodeGen(q, opt, NoInst, fl))
      decreases TChoice(p, q), -1
    {
      hide CodeGen, GetFirst;
      var pcommit := EmitChosen(p, emptyq, f);
      Emit(q, opt, NOINST, fl, NoInst);
      ghost var c1, c2 := CodeGen(p, emptyq, OptionalTestFor(f), FULLSET), CodeGen(q, opt, NoInst, fl);
      Alternatives(old(code), f, c1, c2);
      JumpToHere(pcommit);
    }

    /** The first alternative under a choice entry, up to its commit. */
    method EmitChosen(p: Tree, emptyq: bool, f: First) returns (pcommit: nat)
      requires f == GetFirst(p, FULLSET)
      modifies this
      ensures var c1 := CodeGen(p, emptyq, OptionalTestFor(f), FULLSET);
              var first := old(code) + OptionalTest(f, |c1| + 2) + [IChoice(2 + |c1|)] + c1;
              pcommit == |first| && code == first + [ICommit(0)]
      decreases p, 2
    {
      var test := EmitTestSet(f.cs, f.empty);
      var pchoice := AddInstruction(IChoice(0));
      Emit(p, emptyq, test, FULLSET, OptionalTestFor(f));
      pcommit := AddInstruction(ICommit(0));
      ghost var c1 := CodeGen(p, emptyq, OptionalTestFor(f), FULLSET);
      Patch2(old(code) + EmptyTest(f), IChoice(0), c1, [ICommit(0)], IChoice(2 + |c1|));
      PatchTest(old(code), f, [IChoice(2 + |c1|)], c1, [ICommit(0)], |c1| + 2);
      BothToHere(pchoice, test);
    }

    method EmitRep(p: Tree, opt: bool, fl: Charset)
      modifies this
      ensures code == old(code) + CodeRep(p, opt, fl)
      decreases TRep(p), 0
    {
      var st := ToCharset(p);
      if st.IsCharset? {
        var _ := AddInstruction(ISpan(st.cs));
      } else {
        var f := GetFirst(p, FULLSET);
        if HeadFail(p) || (!f.empty && Disjoint(f.cs, fl)) {
          EmitTestedLoop(p, f);
        } else {
          EmitLoop(p, opt, f);
        }
      }
    }

    method EmitTestedLoop(p: Tree, f: First)
      requires f == GetFirst(p, FULLSET)
      modifies this
      ensures code == old(code) + TestedLoopCode(f.cs, CodeGen(p, false, TestFor(f.cs), FULLSET))
      decreases TRep(p), -1
    {
      ghost var start, c := old(code), CodeGen(p, false, TestFor(f.cs), FULLSET);
      var test := |code|;
      var jmp := EmitTested(p, FULLSET, false, f);
      ghost var test1 := CodeTestSet(f.cs, 2 + |c|);
      Patch0(start + [test1] + c, IJmp(0), IJmp(-(1 + |c|)));
      Join3(start, [test1], c, [IJmp(-(1 + |c|))]);
      JumpToThere(jmp, test);
    }

    /** Set up the choice entry of a loop, or reuse the entry of the option around it. */
    method EnterLoop(opt: bool) returns (pchoice: int)
      modifies this
      ensures code == old(code) + [if opt then IPartialCommit(1) else IChoice(0)]
      ensures pchoice == if opt then NOINST else |old(code)|
    {
      pchoice := NOINST;
      if opt {
        var pc := AddInstruction(IPartialCommit(0));
        Patch0(old(code), IPartialCommit(0), IPartialCommit(1));
        JumpToHere(pc);
      } else {
        pchoice := AddInstruction(IChoice(0));
      }
    }

    method CloseLoop(l2: nat, pchoice: int, test: int)
      requires l2 <= |code|
      requires pchoice >= 0 ==> pchoice < |code| && HasOffset(code[pchoice])
      requires test >= 0 ==> test < |code| && HasOffset(code[test]) && test != pchoice
      modifies this
      ensures var end := |old(code)| + 1;
              var closed := (old(code) + [IPartialCommit(0)])[end - 1 := IPartialCommit(l2 - (end - 1))];
              var entered := if pchoice >= 0 then closed[pchoice := WithOffset(old(code[pchoice]), end - pchoice)]
                             else closed;
              code == if test >= 0 then entered[test := WithOffset(old(code[test]), end - test)] else entered
    {
      var commit := AddInstruction(IPartialCommit(0));
      JumpToThere(commit, l2);
      JumpToHere(pchoice);
      JumpToHere(test);
    }

    method EmitLoop(p: Tree, opt: bool, f: First)
      requires f == GetFirst(p, FULLSET)
      modifies this
      ensures code == old(code) + LoopCode(f, CodeGen(p, false, NoInst, FULLSET), opt)
      decreases TRep(p), -1
    {
      hide CodeGen, LoopCode, GetFirst;
      var test := EmitTestSet(f.cs, f.empty);
      var pchoice := EnterLoop(opt);
      var l2 := |code|;
      Emit(p, false, NOINST, FULLSET, NoInst);
      ghost var c := CodeGen(p, false, NoInst, FULLSET);
      ghost var start := old(code) + EmptyTest(f);
      assert l2 == |start| + 1 && code == start + [if opt then IPartialCommit(1) else IChoice(0)] + c;
      assert !opt ==> code[|start|] == IChoice(0);
      assert !f.empty ==> code[|old(code)|] == EmptyTest(f)[0];
      CloseLoop(l2, pchoice, test);
      LoopPatched(old(code), f, c, opt);
    }

    method EmitNot(p: Tree)
      modifies this
      ensures code == old(code) + CodeNot(p)
      decreases TNot(p), 0
    {
      hide CodeGen, GetFirst;
      var f := GetFirst(p, FULLSET);
      var test := EmitTestSet(f.cs, f.empty);
      if HeadFail(p) {
        var _ := AddInstruction(IFail);
        NotAtOncePatched(old(code), f);
      } else {
        EmitTryAndFail(p);
        NotPatched(old(code), f, CodeGen(p, false, NoInst, FULLSET));
      }
      JumpToHere(test);
    }

    method EmitTryAndFail(p: Tree)
      modifies this
      ensures var c := CodeGen(p, false, NoInst, FULLSET);
              code == old(code) + [IChoice(2 + |c|)] + c + [IFailTwice]
      decreases p, 2
    {
      var pchoice := AddInstruction(IChoice(0));
      Emit(p, false, NOINST, FULLSET, NoInst);
      var _ := AddInstruction(IFailTwice);
      ghost var c := CodeGen(p, false, NoInst, FULLSET);
      Patch2(old(code), IChoice(0), c, [IFailTwice], IChoice(2 + |c|));
      JumpToHere(pchoice);
    }

    method EmitAnd(p: Tree, tt: int, ghost test: Test)
      requires TestAt(code, tt, test)
      modifies this
      ensures code == old(code) + CodeAnd(p, test)
      decreases TAnd(p), 0
    {
      var n := FixedLen(p);
      ghost var start, c := old(code), CodeGen(p, false, test, FULLSET);
      if 0 <= n <= MAXBEHIND && !HasCaptures(p) {
        Emit(p, false, tt, FULLSET, test);
        if n > 0 {
          var _ := AddInstruction(IBehind(n));
          Join2(start, c, [IBehind(n)]);
        }
      } else {
        EmitAndChoice(p, tt, test);
      }
    }

    method EmitAndChoice(p: Tree, tt: int, ghost test: Test)
      requires TestAt(code, tt, test)
      modifies this
      ensures code == old(code) + AndCode(CodeGen(p, false, test, FULLSET))
      decreases TAnd(p), -1
    {
      ghost var start, c := old(code), CodeGen(p, false, test, FULLSET);
      var pchoice := AddInstruction(IChoice(0));
      Emit(p, false, tt, FULLSET, test);
      hide CodeGen, TestAt;
      var pcommit := AddInstruction(IBackCommit(0));
      Patch2(start, IChoice(0), c, [IBackCommit(0)], IChoice(2 + |c|));
      JumpToHere(pchoice);
      var _ := AddInstruction(IFail);
      Patch1(start + [IChoice(2 + |c|)] + c, IBackCommit(0), [IFail], IBackCommit(2));
      JumpToHere(pcommit);
      assert [IBackCommit(2)] + [IFail] == [IBackCommit(2), IFail];
      Join2(start + [IChoice(2 + |c|)] + c, [IBackCommit(2)], [IFail]);
      Join3(start, [IChoice(2 + |c|)], c, [IBackCommit(2), IFail]);
    }

    method EmitCapture(kind: nat, key: nat, p: Tree, tt: int, fl: Charset, ghost test: Test)
      requires TestAt(code, tt, test)
      modifies this
      ensures code == old(code) + CodeCapture(kind, key, p, test, fl)
      decreases TCapture(kind, key, p), 0
    {
      var n := FixedLen(p);
      ghost var start, c := old(code), CodeGen(p, false, test, fl);
      if 0 <= n <= MAXOFF && !HasCaptures(p) {
        Emit(p, false, tt, fl, test);
        var _ := AddInstruction(IFullCapture(kind, key, n));
        Join2(start, c, [IFullCapture(kind, key, n)]);
      } else {
        var _ := AddInstruction(IOpenCapture(kind, key));
        Emit(p, false, tt, fl, test);
        var _ := AddInstruction(ICloseCapture);
        Join3(start, [IOpenCapture(kind, key)], c, [ICloseCapture]);
      }
    }
  }
}
