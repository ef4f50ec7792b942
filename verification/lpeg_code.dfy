/** LPeg's code generator: for each tree, the instructions it appends. */
module LpegCode {
  import opened LpegTree
  import opened LpegAnalysis
  import opened LpegVm

  /** A test instruction known to dominate the code being generated. */
  datatype Test = NoInst | Dominated(test: Instr)

  datatype CharsetKind = EmptyKind | SingletonKind(c: Byte) | FullKind | GeneralKind

  /** Is the charset empty, a singleton, full, or none of those? */
  function CharsetType(cs: Charset): CharsetKind {
    if cs == {} then EmptyKind
    else if cs == FULLSET then FullKind
    else if exists c | c in cs :: cs == {c} then
      var c :| c in cs && cs == {c}; SingletonKind(c)
    else GeneralKind
  }

  function CodeChar(c: Byte, tt: Test): Instr {
    if tt.Dominated? && tt.test.ITestChar? && tt.test.c == c then IAny else IChar(c)
  }

  function CodeCharset(cs: Charset, tt: Test): Instr {
    match CharsetType(cs)
    case SingletonKind(c) => CodeChar(c, tt)
    case GeneralKind =>
      if tt.Dominated? && tt.test.ITestSet? && tt.test.cs == cs then IAny else ISet(cs)
    case FullKind => IAny
    case EmptyKind => IFail
  }

  /** The instruction that jumps away unless the next byte is in `cs`. */
  function CodeTestSet(cs: Charset, offset: int): Instr {
    match CharsetType(cs)
    case EmptyKind => IJmp(offset)
    case FullKind => ITestAny(offset)
    case SingletonKind(c) => ITestChar(c, offset)
    case GeneralKind => ITestSet(cs, offset)
  }

  /** The domination facts that a test on `cs` provides. */
  function TestFor(cs: Charset): Test { Dominated(CodeTestSet(cs, 0)) }

  function OptionalTestFor(f: First): Test { if f.empty then NoInst else TestFor(f.cs) }

  /** A test in front of `k` instructions, left out when the pattern may match nothing. */
  function OptionalTest(f: First, k: nat): seq<Instr> {
    if f.empty then [] else [CodeTestSet(f.cs, k + 1)]
  }

  predicate NeedFollow(t: Tree) {
    match t
    case TChoice(_, _) | TRep(_) => true
    case TCapture(_, _, p) => NeedFollow(p)
    case TSeq(_, q) => NeedFollow(q)
    case _ => false
  }

  predicate Disjoint(a: Charset, b: Charset) { a * b == {} }

  /** When is a test on the next byte enough to choose between `p` and `q`? */
  predicate TestDecidesChoice(p: Tree, q: Tree, fl: Charset) {
    var f1 := GetFirst(p, FULLSET);
    HeadFail(p) || (!f1.empty && Disjoint(f1.cs, GetFirst(q, fl).cs))
  }

  /** When is a test on the next byte enough to drive a loop over `p`? */
  predicate TestDecidesLoop(p: Tree, fl: Charset) {
    var f := GetFirst(p, FULLSET);
    HeadFail(p) || (!f.empty && Disjoint(f.cs, fl))
  }

  // The shapes of code, given the code of the parts.

  /** A test that goes to the second part, the first part, and a jump over the second. */
  function TestedChoiceCode(cs: Charset, c1: seq<Instr>, c2: seq<Instr>, emptyq: bool): seq<Instr> {
    var jmp := if emptyq then [] else [IJmp(1 + |c2|)];
    [CodeTestSet(cs, 1 + |c1| + |jmp|)] + c1 + jmp + c2
  }

  /** The same under a choice entry: the first part commits when it is done. */
  function ChoiceCode(f: First, c1: seq<Instr>, c2: seq<Instr>): seq<Instr> {
    OptionalTest(f, |c1| + 2) + [IChoice(2 + |c1|)] + c1 + [ICommit(1 + |c2|)] + c2
  }

  /** A test that leaves the loop, the body, and a jump back to the test. */
  function TestedLoopCode(cs: Charset, c: seq<Instr>): seq<Instr> {
    [CodeTestSet(cs, 2 + |c|)] + c + [IJmp(-(1 + |c|))]
  }

  /** A choice entry, made here or taken over, that every round of the body brings up to date. */
  function LoopCode(f: First, c: seq<Instr>, opt: bool): seq<Instr> {
    var enter := if opt then IPartialCommit(1) else IChoice(2 + |c|);
    OptionalTest(f, |c| + 2) + [enter] + c + [IPartialCommit(-|c|)]
  }

  /** A choice entry; a match of the body takes it away and fails. */
  function NotCode(f: First, c: seq<Instr>): seq<Instr> {
    OptionalTest(f, |c| + 2) + [IChoice(2 + |c|)] + c + [IFailTwice]
  }

  /** A choice entry; a match of the body goes back to where it began, anything else fails. */
  function AndCode(c: seq<Instr>): seq<Instr> {
    [IChoice(2 + |c|)] + c + [IBackCommit(2), IFail]
  }

  /** The code of a tree.  `opt`: the code is the last thing inside an optional
      pattern whose choice entry it may reuse; `tt`: a test that dominates it;
      `fl`: the first set of what follows. */
  function CodeGen(t: Tree, opt: bool, tt: Test, fl: Charset): seq<Instr>
    decreases t, 1
  {
    match t
    case TChar(c) => [CodeChar(c, tt)]
    case TAny(_) => [IAny]
    case TSet(cs) => [CodeCharset(cs, tt)]
    case TTrue(_) => []
    case TFalse(_) => [IFail]
    case TChoice(p, q) => CodeChoice(p, q, opt, fl)
    case TRep(p) => CodeRep(p, opt, fl)
    case TBehind(p, n) => CodeBehind(p, n)
    case TNot(p) => CodeNot(p)
    case TAnd(p) => CodeAnd(p, tt)
    case TCapture(kind, key, p) => CodeCapture(kind, key, p, tt, fl)
    case TSeq(p, q) => CodeGen(p, false, tt, SeqFollow(p, q, fl)) + CodeGen(q, opt, SeqTest(p, tt), fl)
  }

  function CodeChoice(p: Tree, q: Tree, opt: bool, fl: Charset): seq<Instr>
    decreases TChoice(p, q), 0
  {
    var f := GetFirst(p, FULLSET);
    if TestDecidesChoice(p, q, fl) then
      TestedChoiceCode(f.cs, CodeGen(p, false, TestFor(f.cs), fl), CodeGen(q, opt, NoInst, fl), q.TTrue?)
    else if opt && q.TTrue? then
      [IPartialCommit(1)] + CodeGen(p, true, NoInst, FULLSET)
    else
      ChoiceCode(f, CodeGen(p, q.TTrue?, OptionalTestFor(f), FULLSET), CodeGen(q, opt, NoInst, fl))
  }

  function CodeRep(p: Tree, opt: bool, fl: Charset): seq<Instr>
    decreases TRep(p), 0
  {
    var f := GetFirst(p, FULLSET);
    if ToCharset(p).IsCharset? then [ISpan(ToCharset(p).cs)]
    else if TestDecidesLoop(p, fl) then
      TestedLoopCode(f.cs, CodeGen(p, false, TestFor(f.cs), FULLSET))
    else
      LoopCode(f, CodeGen(p, false, NoInst, FULLSET), opt)
  }

  function CodeBehind(p: Tree, n: nat): seq<Instr>
    decreases TBehind(p, n), 0
  {
    (if n > 0 then [IBehind(n)] else []) + CodeGen(p, false, NoInst, FULLSET)
  }

  function CodeNot(p: Tree): seq<Instr>
    decreases TNot(p), 0
  {
    var f := GetFirst(p, FULLSET);
    if HeadFail(p) then OptionalTest(f, 1) + [IFail]
    else NotCode(f, CodeGen(p, false, NoInst, FULLSET))
  }

  function CodeAnd(p: Tree, tt: Test): seq<Instr>
    decreases TAnd(p), 0
  {
    var n := FixedLen(p);
    if 0 <= n <= MAXBEHIND && !HasCaptures(p) then
      CodeGen(p, false, tt, FULLSET) + (if n > 0 then [IBehind(n)] else [])
    else
      AndCode(CodeGen(p, false, tt, FULLSET))
  }

  function CodeCapture(kind: nat, key: nat, p: Tree, tt: Test, fl: Charset): seq<Instr>
    decreases TCapture(kind, key, p), 0
  {
    var n := FixedLen(p);
    if 0 <= n <= MAXOFF && !HasCaptures(p) then
      CodeGen(p, false, tt, fl) + [IFullCapture(kind, key, n)]
    else
      [IOpenCapture(kind, key)] + CodeGen(p, false, tt, fl) + [ICloseCapture]
  }

  /** The follow set of the first part of a sequence. */
  function SeqFollow(p: Tree, q: Tree, fl: Charset): Charset {
    if NeedFollow(p) then GetFirst(q, fl).cs else FULLSET
  }

  /** A test stays valid for the second part of a sequence when the first consumes nothing. */
  function SeqTest(p: Tree, tt: Test): Test {
    if FixedLen(p) != 0 then NoInst else tt
  }

  function Compile(t: Tree): seq<Instr> {
    CodeGen(t, false, NoInst, FULLSET) + [IEnd]
  }
}
