/** What every update and every message keeps, and what a message reports. */
module AoiInvariant {
  import opened AoiRules

  function One(b: bool): nat { if b then 1 else 0 }

  /** How often an object is an end of a hot pair. */
  function Ends(hot: seq<Pair>, id: Id): nat {
    if hot == [] then 0
    else Ends(hot[..|hot| - 1], id) + One(hot[|hot| - 1].watcher == id) + One(hot[|hot| - 1].marker == id)
  }

  lemma {:induction false} EndsConcat(a: seq<Pair>, b: seq<Pair>, id: Id)
    ensures Ends(a + b, id) == Ends(a, id) + Ends(b, id)
  {
    if b == [] {
      assert a + b == a;
    } else {
      assert (a + b)[..|a + b| - 1] == a + b[..|b| - 1];
      EndsConcat(a, b[..|b| - 1], id);
    }
  }

  lemma {:induction false} EndsOne(p: Pair, id: Id)
    ensures Ends([p], id) == One(p.watcher == id) + One(p.marker == id)
  {
    assert [p][..0] == [];
  }

  lemma {:induction false} EndsIn(hot: seq<Pair>, i: nat)
    requires i < |hot|
    ensures Ends(hot, hot[i].watcher) > 0 && Ends(hot, hot[i].marker) > 0
  {
    var m := |hot| - 1;
    if i < m { EndsIn(hot[..m], i); }
  }

  // --------------------------------------------------------- the invariant

  /** The reference count: one until the object is dropped, and one for each end of a hot pair. */
  predicate RefOk(objects: map<Id, Object>, hot: seq<Pair>, id: Id) {
    if id in objects then objects[id].ref == One(!objects[id].drop) + Ends(hot, id) && objects[id].ref > 0
    else Ends(hot, id) == 0
  }

  ghost predicate RefsOk(objects: map<Id, Object>, hot: seq<Pair>) { forall id :: RefOk(objects, hot, id) }

  /** A dropped object has no other flag. */
  ghost predicate FlagsOk(objects: map<Id, Object>) {
    forall id :: id in objects && objects[id].drop ==> !objects[id].watcher && !objects[id].marker && !objects[id].move
  }

  /** A recorded version is not from the future, and an object with the recorded
      version has not moved since. */
  predicate EndOk(objects: map<Id, Object>, id: Id, version: nat) {
    id in objects ==> version <= objects[id].version && (version == objects[id].version ==> !objects[id].move)
  }

  predicate PairOk(objects: map<Id, Object>, p: Pair) {
    p.watcher != p.marker && EndOk(objects, p.watcher, p.watcherVersion) && EndOk(objects, p.marker, p.markerVersion)
  }

  ghost predicate PairsOk(objects: map<Id, Object>, hot: seq<Pair>) {
    forall i :: 0 <= i < |hot| ==> PairOk(objects, hot[i])
  }

  function Key(p: Pair): (Id, Id) { (p.watcher, p.marker) }

  /** No two hot pairs of the same watcher and marker. */
  ghost predicate Single(hot: seq<Pair>) {
    forall i, j :: 0 <= i < j < |hot| ==> Key(hot[i]) != Key(hot[j])
  }

  ghost predicate Inv(s: Space) {
    match s
    case Space(objects, hot) => RefsOk(objects, hot) && FlagsOk(objects) && PairsOk(objects, hot) && Single(hot)
  }

  // ---------------------------------------------------------------- updates

  lemma {:induction false} QueryKeeps(s: Space, id: Id)
    requires Inv(s) && id !in s.objects
    ensures var t := s.objects[id := NewObject()];
            (forall k :: RefOk(t, s.hot, k)) && FlagsOk(t) && PairsOk(t, s.hot)
  {
    var t := s.objects[id := NewObject()];
    assert RefOk(s.objects, s.hot, id);
    forall k ensures RefOk(t, s.hot, k) { assert RefOk(s.objects, s.hot, k); }
    forall i | 0 <= i < |s.hot| ensures PairOk(t, s.hot[i]) {
      assert PairOk(s.objects, s.hot[i]);
      EndsIn(s.hot, i);
    }
  }

  /** Changing one object, with its reference count in step. */
  lemma {:induction false} ChangeKeeps(s: Space, id: Id, o: Object)
    requires Inv(s) && id in s.objects
    requires o.ref == One(!o.drop) + Ends(s.hot, id) && o.ref > 0
    requires o.drop ==> !o.watcher && !o.marker && !o.move
    requires s.objects[id].version <= o.version
    requires o.version == s.objects[id].version ==> o.move == s.objects[id].move || !o.move
    ensures Inv(s.(objects := s.objects[id := o]))
  {
    var t := s.objects[id := o];
    forall k ensures RefOk(t, s.hot, k) { assert RefOk(s.objects, s.hot, k); }
    forall i | 0 <= i < |s.hot| ensures PairOk(t, s.hot[i]) { assert PairOk(s.objects, s.hot[i]); }
  }

  /** An object without references goes. */
  lemma {:induction false} RemoveKeeps(s: Space, id: Id)
    requires Inv(s) && Ends(s.hot, id) == 0
    ensures Inv(s.(objects := s.objects - {id}))
  {
    var t := s.objects - {id};
    forall k ensures RefOk(t, s.hot, k) { assert RefOk(s.objects, s.hot, k); }
    forall i | 0 <= i < |s.hot| ensures PairOk(t, s.hot[i]) { assert PairOk(s.objects, s.hot[i]); }
  }

  lemma {:induction false} QueryInv(s: Space, id: Id)
    requires Inv(s)
    ensures Inv(Query(s, id)) && id in Query(s, id).objects
  {
    if id !in s.objects { QueryKeeps(s, id); }
  }

  lemma {:induction false} MovedKeeps(t: Space, id: Id, r: Request, pos: Vec)
    requires Inv(t) && id in t.objects
    ensures var o := t.objects[id];
            var o1 := if o.drop then o.(drop := false, ref := o.ref + 1) else o;
            Inv(t.(objects := t.objects[id := Moved(o1, r, pos)]))
  {
    var o := t.objects[id];
    var o1 := if o.drop then o.(drop := false, ref := o.ref + 1) else o;
    assert RefOk(t.objects, t.hot, id);
    ChangeKeeps(t, id, Moved(o1, r, pos));
  }

  lemma {:induction false} DropKeeps(t: Space, id: Id)
    requires Inv(t) && id in t.objects && !t.objects[id].drop
    ensures var o := t.objects[id].(watcher := false, marker := false, move := false, drop := true);
            Inv(DropRef(t.(objects := t.objects[id := o]), id))
  {
    var o := t.objects[id].(watcher := false, marker := false, move := false, drop := true);
    var u := t.(objects := t.objects[id := o]);
    assert RefOk(t.objects, t.hot, id);
    if o.ref - 1 <= 0 {
      assert u.objects - {id} == t.objects - {id};
      RemoveKeeps(t, id);
    } else {
      ChangeKeeps(t, id, o.(ref := o.ref - 1));
      assert u.objects[id := o.(ref := o.ref - 1)] == t.objects[id := o.(ref := o.ref - 1)];
    }
  }

  lemma {:induction false} UpdateKeeps(s: Space, id: Id, mode: string, pos: Vec)
    requires Inv(s)
    ensures Inv(Update(s, id, mode, pos))
  {
    QueryInv(s, id);
    var t := Query(s, id);
    if Scan(mode).drop {
      if !t.objects[id].drop { DropKeeps(t, id); }
    } else {
      MovedKeeps(t, id, Scan(mode), pos);
    }
  }

  // --------------------------------------------------------------- flushing

  /** Flushing only takes references away. */
  predicate SameFor(a: map<Id, Object>, b: map<Id, Object>, id: Id) {
    && (id in b ==> id in a && b[id] == a[id].(ref := b[id].ref))
    && (id in a && !a[id].drop ==> id in b)
  }

  ghost predicate Same(a: map<Id, Object>, b: map<Id, Object>) { forall id :: SameFor(a, b, id) }

  /** Taking the references of one pair away. */
  lemma {:induction false} PairDropped(s: Space, p: Pair, rest: seq<Pair>)
    requires RefsOk(s.objects, [p] + rest) && p.watcher != p.marker
    ensures RefsOk(DropPair(s, p).objects, rest) && Same(s.objects, DropPair(s, p).objects)
    ensures DropPair(s, p).hot == s.hot
  {
    var t := DropPair(s, p);
    forall id ensures RefOk(t.objects, rest, id) && SameFor(s.objects, t.objects, id) {
      EndsConcat([p], rest, id);
      EndsOne(p, id);
      assert RefOk(s.objects, [p] + rest, id);
      EndsConcat([p], rest, p.watcher);
      EndsOne(p, p.watcher);
      assert RefOk(s.objects, [p] + rest, p.watcher);
    }
  }

  lemma {:induction false} SameChain(a: map<Id, Object>, b: map<Id, Object>, c: map<Id, Object>)
    requires Same(a, b) && Same(b, c)
    ensures Same(a, c)
  {
    forall id ensures SameFor(a, c, id) { assert SameFor(a, b, id) && SameFor(b, c, id); }
  }

  /** A pair with both ends alive is judged alike before and during a flush. */
  lemma {:induction false} SameJudgement(s: Space, t: Space, p: Pair)
    requires Same(s.objects, t.objects) && p.watcher in t.objects && p.marker in t.objects
    ensures JudgeIn(t, p) == JudgeIn(s, p)
  {
    assert SameFor(s.objects, t.objects, p.watcher) && SameFor(s.objects, t.objects, p.marker);
  }

  /** The pairs with a given verdict, in order. */
  function Judged(s: Space, ps: seq<Pair>, v: Verdict): seq<Pair> {
    if ps == [] then []
    else Judged(s, ps[..|ps| - 1], v) + if JudgeIn(s, ps[|ps| - 1]) == v then [ps[|ps| - 1]] else []
  }

  function Keys(ps: seq<Pair>): (r: seq<(Id, Id)>)
    ensures |r| == |ps| && forall i :: 0 <= i < |ps| ==> r[i] == Key(ps[i])
  {
    if ps == [] then [] else Keys(ps[..|ps| - 1]) + [Key(ps[|ps| - 1])]
  }

  /** Counting the ends of the pairs that are left. */
  lemma {:induction false} RefsReorder(objects: map<Id, Object>, a: seq<Pair>, b: seq<Pair>)
    requires RefsOk(objects, a) && forall id :: Ends(a, id) == Ends(b, id)
    ensures RefsOk(objects, b)
  {
    forall id ensures RefOk(objects, b, id) { assert RefOk(objects, a, id); }
  }

  lemma {:induction false} FlushStep(s: Space, n: nat)
    requires Inv(s) && n < |s.hot|
    requires var f := FlushPairs(s, s.hot[..n]);
             RefsOk(f.space.objects, f.kept + s.hot[n..]) && Same(s.objects, f.space.objects)
    ensures var f, g, p := FlushPairs(s, s.hot[..n]), FlushPairs(s, s.hot[..n + 1]), s.hot[n];
            && RefsOk(g.space.objects, g.kept + s.hot[n + 1..]) && Same(s.objects, g.space.objects)
            && g.kept == f.kept + (if JudgeIn(s, p) == Kept then [p] else [])
            && g.reported == f.reported + (if JudgeIn(s, p) == Reported then [Key(p)] else [])
  {
    var f, p, rest := FlushPairs(s, s.hot[..n]), s.hot[n], s.hot[n + 1..];
    assert s.hot[..n + 1][..n] == s.hot[..n];
    EndsAlive(f.space.objects, f.kept, p, s.hot[n..]);
    SameJudgement(s, f.space, p);
    assert s.hot[n..] == [p] + rest;
    if JudgeIn(s, p) == Kept {
      assert f.kept + s.hot[n..] == f.kept + [p] + rest;
    } else {
      forall id ensures Ends(f.kept + s.hot[n..], id) == Ends([p] + (f.kept + rest), id) {
        EndsConcat(f.kept, [p] + rest, id);
        EndsConcat([p], rest, id);
        EndsConcat([p], f.kept + rest, id);
        EndsConcat(f.kept, rest, id);
      }
      RefsReorder(f.space.objects, f.kept + s.hot[n..], [p] + (f.kept + rest));
      assert PairOk(s.objects, s.hot[n]);
      PairDropped(f.space, p, f.kept + rest);
      SameChain(s.objects, f.space.objects, DropPair(f.space, p).objects);
      assert f.kept + [] == f.kept;
    }
  }

  lemma {:induction false} EndsAlive(objects: map<Id, Object>, kept: seq<Pair>, p: Pair, rest: seq<Pair>)
    requires RefsOk(objects, kept + rest) && rest != [] && rest[0] == p
    ensures p.watcher in objects && p.marker in objects
  {
    EndsIn(kept + rest, |kept|);
    assert (kept + rest)[|kept|] == p;
    assert RefOk(objects, kept + rest, p.watcher) && RefOk(objects, kept + rest, p.marker);
  }

  /** What a flush does, pair by pair: the verdicts are those of the state before it. */
  lemma {:induction false} FlushMeaning(s: Space, n: nat)
    requires Inv(s) && n <= |s.hot|
    ensures var f := FlushPairs(s, s.hot[..n]);
            && RefsOk(f.space.objects, f.kept + s.hot[n..]) && Same(s.objects, f.space.objects)
            && f.kept == Judged(s, s.hot[..n], Kept) && f.reported == Keys(Judged(s, s.hot[..n], Reported))
  {
    if n == 0 {
      assert [] + s.hot[0..] == s.hot && s.hot[..0] == [];
      forall id ensures SameFor(s.objects, s.objects, id) {}
    } else {
      FlushMeaning(s, n - 1);
      FlushStep(s, n - 1);
      assert s.hot[..n][..n - 1] == s.hot[..n - 1];
      KeysAppend(Judged(s, s.hot[..n - 1], Reported), s.hot[n - 1]);
    }
  }

  lemma {:induction false} KeysAppend(ps: seq<Pair>, p: Pair)
    ensures Keys(ps + [p]) == Keys(ps) + [Key(p)] && Keys(ps + []) == Keys(ps)
  {
    assert (ps + [p])[..|ps|] == ps && ps + [] == ps;
  }

  // ------------------------------------------------- judged pairs as a list

  lemma {:induction false} JudgedIn(s: Space, ps: seq<Pair>, v: Verdict)
    ensures forall p :: p in Judged(s, ps, v) <==> p in ps && JudgeIn(s, p) == v
  {
    if ps != [] {
      JudgedIn(s, ps[..|ps| - 1], v);
      assert ps == ps[..|ps| - 1] + [ps[|ps| - 1]];
    }
  }

  lemma {:induction false} JudgedSingle(s: Space, ps: seq<Pair>, v: Verdict)
    requires Single(ps)
    ensures Single(Judged(s, ps, v))
  {
    if ps != [] {
      var m := |ps| - 1;
      JudgedSingle(s, ps[..m], v);
      JudgedIn(s, ps[..m], v);
      var js := Judged(s, ps[..m], v);
      forall i | 0 <= i < |js| ensures Key(js[i]) != Key(ps[m]) {
        assert js[i] in ps[..m];
        var k :| 0 <= k < m && ps[..m][k] == js[i];
        assert Key(ps[k]) != Key(ps[m]);
      }
    }
  }
}
