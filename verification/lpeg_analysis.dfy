/** The static analyses that drive LPeg's optimisations, and their soundness
    with respect to the meaning of patterns. */
module LpegAnalysis {
  import opened LpegTree

  datatype Pred = PEnullable | PEnofail

  /** The charset of a pattern that matches exactly one byte. */
  datatype CharsetOption = NotCharset | IsCharset(cs: Charset)

  function ToCharset(t: Tree): CharsetOption {
    match t
    case TSet(cs) => IsCharset(cs)
    case TChar(c) => IsCharset({c})
    case TAny(_) => IsCharset(FULLSET)
    case _ => NotCharset
  }

  predicate HasCaptures(t: Tree) {
    match t
    case TCapture(_, _, _) => true
    case TChar(_) | TSet(_) | TAny(_) | TTrue(_) | TFalse(_) => false
    case TRep(p) => HasCaptures(p)
    case TNot(p) => HasCaptures(p)
    case TAnd(p) => HasCaptures(p)
    case TBehind(p, _) => HasCaptures(p)
    case TSeq(p, q) => HasCaptures(p) || HasCaptures(q)
    case TChoice(p, q) => HasCaptures(p) || HasCaptures(q)
  }

  predicate CheckAux(t: Tree, pred: Pred) {
    match t
    case TChar(_) | TSet(_) | TAny(_) | TFalse(_) => false
    case TRep(_) | TTrue(_) => true
    case TNot(_) | TBehind(_, _) => pred == PEnullable
    case TAnd(p) => pred == PEnullable || CheckAux(p, pred)
    case TSeq(p, q) => CheckAux(p, pred) && CheckAux(q, pred)
    case TChoice(p, q) => CheckAux(q, pred) || CheckAux(p, pred)
    case TCapture(_, _, p) => CheckAux(p, pred)
  }

  predicate Nullable(t: Tree) { CheckAux(t, PEnullable) }

  predicate NoFail(t: Tree) { CheckAux(t, PEnofail) }

  /** Number of bytes every match consumes, or -1 when that may vary. */
  function FixedLen(t: Tree): (n: int)
    ensures n >= -1
  {
    match t
    case TChar(_) | TSet(_) | TAny(_) => 1
    case TFalse(_) | TTrue(_) | TNot(_) | TAnd(_) | TBehind(_, _) => 0
    case TRep(_) => -1
    case TCapture(_, _, p) => FixedLen(p)
    case TSeq(p, q) =>
      var n1 := FixedLen(p);
      var n2 := FixedLen(q);
      if n1 < 0 || n2 < 0 then -1 else n1 + n2
    case TChoice(p, q) =>
      var n1 := FixedLen(p);
      var n2 := FixedLen(q);
      if n1 != n2 || n1 < 0 then -1 else n1
  }

  /** What the pattern constructors of lptree.c enforce: loop bodies are not
      nullable, and look-behind bodies have a known short length and no captures. */
  predicate WellFormed(t: Tree) {
    match t
    case TChar(_) | TSet(_) | TAny(_) | TTrue(_) | TFalse(_) => true
    case TRep(p) => WellFormed(p) && !Nullable(p)
    case TNot(p) => WellFormed(p)
    case TAnd(p) => WellFormed(p)
    case TCapture(_, _, p) => WellFormed(p)
    case TBehind(p, n) => WellFormed(p) && FixedLen(p) == n && n <= MAXBEHIND && !HasCaptures(p)
    case TSeq(p, q) => WellFormed(p) && WellFormed(q)
    case TChoice(p, q) => WellFormed(p) && WellFormed(q)
  }

  /** The first set of a pattern; `empty` says that the set must not be used
      as a test because the pattern may match at the end of the subject. */
  datatype First = First(cs: Charset, empty: bool)

  function GetFirst(t: Tree, follow: Charset): First
  {
    match t
    case TChar(c) => First({c}, false)
    case TSet(cs) => First(cs, false)
    case TAny(_) => First(FULLSET, false)
    case TTrue(_) => First(follow, true)
    case TFalse(_) => First({}, false)
    case TChoice(p, q) =>
      var f1 := GetFirst(p, follow);
      var f2 := GetFirst(q, follow);
      First(f1.cs + f2.cs, f1.empty || f2.empty)
    case TSeq(p, q) =>
      if !Nullable(p) then GetFirst(p, FULLSET)
      else
        var f2 := GetFirst(q, follow);
        var f1 := GetFirst(p, f2.cs);
        First(f1.cs, f1.empty && f2.empty)
    case TRep(p) => First(GetFirst(p, follow).cs + follow, true)
    case TCapture(_, _, p) => GetFirst(p, follow)
    case TAnd(p) =>
      var f := GetFirst(p, follow);
      First(f.cs * follow, f.empty)
    case TNot(p) =>
      if ToCharset(p).IsCharset? then First(FULLSET - ToCharset(p).cs, true)
      else First(follow, true)
    case TBehind(_, _) => First(follow, true)
  }

  /** Can the pattern fail only because of the next byte of the subject? */
  predicate HeadFail(t: Tree) {
    match t
    case TChar(_) | TSet(_) | TAny(_) | TFalse(_) => true
    case TTrue(_) | TRep(_) | TNot(_) | TBehind(_, _) => false
    case TCapture(_, _, p) => HeadFail(p)
    case TAnd(p) => HeadFail(p)
    case TSeq(p, q) => NoFail(q) && HeadFail(p)
    case TChoice(p, q) => HeadFail(p) && HeadFail(q)
  }

  // ---------------------------------------------------------------- soundness

  lemma CharsetMatch(t: Tree, s: Subject, i: nat)
    requires i <= |s| && ToCharset(t).IsCharset?
    ensures Match(t, s, i) ==
            if i < |s| && s[i] in ToCharset(t).cs then Matched(i + 1, []) else NoMatch
  {
  }

  lemma {:induction false} NullableSound(t: Tree, s: Subject, i: nat)
    requires i <= |s| && WellFormed(t) && !Nullable(t)
    ensures Match(t, s, i).Matched? ==> Match(t, s, i).next > i
  {
    match t
    case TSeq(p, q) =>
      var r := Match(p, s, i);
      if r.Matched? {
        if !Nullable(p) {
          NullableSound(p, s, i);
        } else {
          NullableSound(q, s, r.next);
        }
      }
    case TChoice(p, q) =>
      NullableSound(p, s, i);
      NullableSound(q, s, i);
    case TCapture(_, _, p) =>
      NullableSound(p, s, i);
    case _ =>
  }

  /** A repetition always succeeds, and unrolls into its body followed by itself. */
  lemma RepUnroll(p: Tree, s: Subject, i: nat)
    requires i <= |s| && WellFormed(TRep(p))
    ensures var r := Match(p, s, i);
            Match(TRep(p), s, i) ==
            if r.NoMatch? then Matched(i, [])
            else if Match(TRep(p), s, r.next).NoMatch? then NoMatch
            else Matched(Match(TRep(p), s, r.next).next, r.caps + Match(TRep(p), s, r.next).caps)
    ensures Match(p, s, i).Matched? ==> Match(p, s, i).next > i
  {
    NullableSound(p, s, i);
  }

  lemma {:induction false} RepMatches(p: Tree, s: Subject, i: nat)
    requires i <= |s| && WellFormed(TRep(p))
    ensures Match(TRep(p), s, i).Matched?
    decreases |s| - i
  {
    RepUnroll(p, s, i);
    if Match(p, s, i).Matched? {
      RepMatches(p, s, Match(p, s, i).next);
    }
  }

  lemma {:induction false} NoFailSound(t: Tree, s: Subject, i: nat)
    requires i <= |s| && WellFormed(t) && NoFail(t)
    ensures Match(t, s, i).Matched?
  {
    match t
    case TRep(p) =>
      RepMatches(p, s, i);
    case TSeq(p, q) =>
      NoFailSound(p, s, i);
      NoFailSound(q, s, Match(p, s, i).next);
    case TChoice(p, q) =>
      if NoFail(q) {
        NoFailSound(q, s, i);
      } else {
        NoFailSound(p, s, i);
      }
    case TAnd(p) =>
      NoFailSound(p, s, i);
    case TCapture(_, _, p) =>
      NoFailSound(p, s, i);
    case TTrue(_) =>
  }

  lemma {:induction false} FixedLenSound(t: Tree, s: Subject, i: nat)
    requires i <= |s| && FixedLen(t) >= 0
    ensures Match(t, s, i).Matched? ==> Match(t, s, i).next == i + FixedLen(t)
  {
    match t
    case TSeq(p, q) =>
      FixedLenSound(p, s, i);
      if Match(p, s, i).Matched? {
        FixedLenSound(q, s, Match(p, s, i).next);
      }
    case TChoice(p, q) =>
      FixedLenSound(p, s, i);
      FixedLenSound(q, s, i);
    case TCapture(_, _, p) =>
      FixedLenSound(p, s, i);
    case _ =>
  }

  lemma {:induction false} NoCapturesSound(t: Tree, s: Subject, i: nat)
    requires i <= |s| && !HasCaptures(t)
    ensures Match(t, s, i).Matched? ==> Match(t, s, i).caps == []
    decreases t, |s| - i
  {
    match t
    case TSeq(p, q) =>
      NoCapturesSound(p, s, i);
      if Match(p, s, i).Matched? {
        NoCapturesSound(q, s, Match(p, s, i).next);
      }
    case TChoice(p, q) =>
      NoCapturesSound(p, s, i);
      NoCapturesSound(q, s, i);
    case TRep(p) =>
      NoCapturesSound(p, s, i);
      var r := Match(p, s, i);
      if r.Matched? && r.next > i {
        NoCapturesSound(t, s, r.next);
      }
    case _ =>
  }

  /** The first set is sound: a match that consumes input, or an empty match in
      front of a byte of the follow set, starts with a byte of the first set;
      and a match at the end of the subject is announced by `empty`. */
  lemma {:induction false} FirstSound(t: Tree, follow: Charset, s: Subject, i: nat)
    requires i <= |s| && WellFormed(t) && Match(t, s, i).Matched?
    ensures i < |s| && (Match(t, s, i).next > i || s[i] in follow) ==> s[i] in GetFirst(t, follow).cs
    ensures i == |s| ==> GetFirst(t, follow).empty
  {
    match t
    case TSeq(p, q) =>
      var r := Match(p, s, i);
      if !Nullable(p) {
        NullableSound(p, s, i);
        FirstSound(p, FULLSET, s, i);
      } else {
        FirstSound(q, follow, s, r.next);
        FirstSound(p, GetFirst(q, follow).cs, s, i);
      }
    case TChoice(p, q) =>
      if Match(p, s, i).Matched? {
        FirstSound(p, follow, s, i);
      } else {
        FirstSound(q, follow, s, i);
      }
    case TRep(p) =>
      RepUnroll(p, s, i);
      if Match(p, s, i).Matched? {
        FirstSound(p, follow, s, i);
      }
    case TAnd(p) =>
      FirstSound(p, follow, s, i);
    case TNot(p) =>
      if ToCharset(p).IsCharset? {
        CharsetMatch(p, s, i);
      }
    case TCapture(_, _, p) =>
      FirstSound(p, follow, s, i);
    case _ =>
  }

  /** A pattern that cannot fail puts no constraint on the next byte. */
  lemma {:induction false} NoFailFirst(t: Tree)
    requires WellFormed(t) && NoFail(t)
    ensures GetFirst(t, FULLSET).cs == FULLSET
  {
    match t
    case TSeq(p, q) =>
      NoFailFirst(q);
      NoFailFirst(p);
      NoFailNullable(p);
    case TChoice(p, q) =>
      if NoFail(q) {
        NoFailFirst(q);
      } else {
        NoFailFirst(p);
      }
      FirstBounded(p, FULLSET);
      FirstBounded(q, FULLSET);
    case TRep(p) =>
      FirstBounded(p, FULLSET);
    case TAnd(p) =>
      NoFailFirst(p);
    case TCapture(_, _, p) =>
      NoFailFirst(p);
    case TTrue(_) =>
  }

  lemma FirstBounded(t: Tree, follow: Charset)
    ensures GetFirst(t, follow).cs <= FULLSET
  {
  }

  lemma {:induction false} NoFailNullable(t: Tree)
    requires NoFail(t)
    ensures Nullable(t)
  {
    match t
    case TSeq(p, q) =>
      NoFailNullable(p);
      NoFailNullable(q);
    case TChoice(p, q) =>
      if NoFail(q) {
        NoFailNullable(q);
      } else {
        NoFailNullable(p);
      }
    case TCapture(_, _, p) =>
      NoFailNullable(p);
    case _ =>
  }

  /** A head-fail pattern succeeds exactly when the next byte is in its first set. */
  lemma {:induction false} HeadFailExact(t: Tree, s: Subject, i: nat)
    requires i <= |s| && WellFormed(t) && HeadFail(t)
    ensures Match(t, s, i).Matched? <==> i < |s| && s[i] in GetFirst(t, FULLSET).cs
  {
    match t
    case TSeq(p, q) =>
      HeadFailExact(p, s, i);
      NoFailFirst(q);
      if Match(p, s, i).Matched? {
        NoFailSound(q, s, Match(p, s, i).next);
      }
    case TChoice(p, q) =>
      HeadFailExact(p, s, i);
      HeadFailExact(q, s, i);
    case TAnd(p) =>
      HeadFailExact(p, s, i);
    case TCapture(_, _, p) =>
      HeadFailExact(p, s, i);
    case _ =>
  }

  /** The first set of a head-fail pattern is always usable as a test. */
  lemma {:induction false} HeadFailNotEmpty(t: Tree, follow: Charset)
    requires HeadFail(t)
    ensures !GetFirst(t, follow).empty
  {
    match t
    case TSeq(p, q) =>
      HeadFailNotEmpty(p, FULLSET);
      HeadFailNotEmpty(p, GetFirst(q, follow).cs);
    case TChoice(p, q) =>
      HeadFailNotEmpty(p, follow);
      HeadFailNotEmpty(q, follow);
    case TAnd(p) =>
      HeadFailNotEmpty(p, follow);
    case TCapture(_, _, p) =>
      HeadFailNotEmpty(p, follow);
    case _ =>
  }
}
