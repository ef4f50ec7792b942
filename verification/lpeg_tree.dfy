/** Pattern trees of the LPeg library and their meaning.

    A pattern is matched against a subject (a sequence of bytes) from a given
    position.  The meaning below is the usual one for parsing expression
    grammars: ordered choice, greedy repetition without backtracking into the
    loop, and predicates that consume nothing.  Rules, calls and run-time
    captures are not part of this model. */
module LpegTree {

  type Byte = b: int | 0 <= b < 256

  type Charset = set<Byte>

  const FULLSET: Charset := set b: Byte | 0 <= b < 256

  /** The furthest look-behind, and the longest capture, that one instruction can encode. */
  const MAXBEHIND := 0xFF
  const MAXOFF := 0xF

  /** Every node of a tree has a key; in the leaves it has no meaning. */
  datatype Tree =
    | TChar(c: Byte)
    | TSet(cs: Charset)
    | TAny(key: nat)
    | TTrue(key: nat)
    | TFalse(key: nat)
    | TRep(body: Tree)
    | TSeq(sib1: Tree, sib2: Tree)
    | TChoice(sib1: Tree, sib2: Tree)
    | TNot(body: Tree)
    | TAnd(body: Tree)
    | TBehind(body: Tree, n: nat)
    | TCapture(kind: nat, key: nat, body: Tree)

  /** Captures are recorded as a stream of opening and closing events. */
  datatype CapEvent = OpenCap(kind: nat, key: nat, at: nat) | CloseCap(at: nat)

  type Subject = seq<Byte>

  datatype Outcome = NoMatch | Matched(next: nat, caps: seq<CapEvent>)

  /** The meaning of a pattern at position `i` of subject `s`. */
  function Match(t: Tree, s: Subject, i: nat): (r: Outcome)
    requires i <= |s|
    ensures r.Matched? ==> i <= r.next <= |s|
    decreases t, |s| - i
  {
    match t
    case TChar(c) => if i < |s| && s[i] == c then Matched(i + 1, []) else NoMatch
    case TSet(cs) => if i < |s| && s[i] in cs then Matched(i + 1, []) else NoMatch
    case TAny(_) => if i < |s| then Matched(i + 1, []) else NoMatch
    case TTrue(_) => Matched(i, [])
    case TFalse(_) => NoMatch
    case TSeq(p, q) =>
      (match Match(p, s, i)
       case NoMatch => NoMatch
       case Matched(j, c) =>
         match Match(q, s, j)
         case NoMatch => NoMatch
         case Matched(k, d) => Matched(k, c + d))
    case TChoice(p, q) =>
      var r := Match(p, s, i);
      if r.Matched? then r else Match(q, s, i)
    case TRep(p) =>
      (match Match(p, s, i)
       case NoMatch => Matched(i, [])
       case Matched(j, c) =>
         if j == i then Matched(i, [])  // excluded by WellFormed
         else
           var r := Match(t, s, j);
           if r.Matched? then Matched(r.next, c + r.caps) else NoMatch)
    case TNot(p) => if Match(p, s, i).NoMatch? then Matched(i, []) else NoMatch
    case TAnd(p) => if Match(p, s, i).Matched? then Matched(i, []) else NoMatch
    case TBehind(p, n) =>
      if n <= i && Match(p, s, i - n).Matched? then Matched(i, []) else NoMatch
    case TCapture(kind, key, p) =>
      match Match(p, s, i)
      case NoMatch => NoMatch
      case Matched(j, c) => Matched(j, [OpenCap(kind, key, i)] + c + [CloseCap(j)])
  }
}
