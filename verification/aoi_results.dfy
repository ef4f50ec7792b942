/** What the area-of-interest engine promises, over every run. */
module AoiResults {
  import opened AoiRules
  import opened AoiInvariant

  // ------------------------------------------------------- after the flush

  lemma {:induction false} EndsSome(hot: seq<Pair>, id: Id)
    requires Ends(hot, id) > 0
    ensures exists i :: 0 <= i < |hot| && (hot[i].watcher == id || hot[i].marker == id)
  {
    var m := |hot| - 1;
    if hot[m].watcher != id && hot[m].marker != id {
      EndsSome(hot[..m], id);
      var i :| 0 <= i < m && (hot[..m][i].watcher == id || hot[..m][i].marker == id);
      assert hot[i] == hot[..m][i];
    }
  }

  lemma {:induction false} PairsStay(objects: map<Id, Object>, after: map<Id, Object>, ps: seq<Pair>, hot: seq<Pair>)
    requires PairsOk(objects, hot) && Same(objects, after) && forall p <- ps :: p in hot
    ensures PairsOk(after, ps)
  {
    forall i | 0 <= i < |ps| ensures PairOk(after, ps[i]) {
      assert ps[i] in hot;
      var k :| 0 <= k < |hot| && hot[k] == ps[i];
      assert PairOk(objects, hot[k]) && SameFor(objects, after, ps[i].watcher) && SameFor(objects, after, ps[i].marker);
    }
  }

  lemma {:induction false} FlagsStay(a: map<Id, Object>, b: map<Id, Object>)
    requires FlagsOk(a) && Same(a, b)
    ensures FlagsOk(b)
  {
    forall id | id in b && b[id].drop ensures !b[id].watcher && !b[id].marker && !b[id].move {
      assert SameFor(a, b, id);
    }
  }

  /** The flush keeps the invariant; the pairs that stay are those of the verdict, and
      dropped objects are gone. */
  lemma {:induction false} FlushKeeps(s: Space)
    requires Inv(s)
    ensures Inv(Flushed(s)) && Same(s.objects, Flushed(s).objects)
    ensures Flushed(s).hot == Judged(s, s.hot, Kept) && FlushReports(s) == Keys(Judged(s, s.hot, Reported))
    ensures forall id <- Flushed(s).objects :: !Flushed(s).objects[id].drop
  {
    var n := |s.hot|;
    FlushMeaning(s, n);
    assert s.hot[..n] == s.hot;
    var f := FlushPairs(s, s.hot);
    assert f.kept + s.hot[n..] == f.kept;
    JudgedIn(s, s.hot, Kept);
    JudgedSingle(s, s.hot, Kept);
    PairsStay(s.objects, f.space.objects, f.kept, s.hot);
    FlagsStay(s.objects, f.space.objects);
    forall id | id in f.space.objects ensures !f.space.objects[id].drop {
      NotDropped(s, f.space.objects, f.kept, id);
    }
  }

  lemma {:induction false} NotDropped(s: Space, objects: map<Id, Object>, kept: seq<Pair>, id: Id)
    requires RefsOk(objects, kept) && Same(s.objects, objects) && id in objects
    requires forall p <- kept :: JudgeIn(s, p) == Kept
    ensures !objects[id].drop
  {
    assert RefOk(objects, kept, id) && SameFor(s.objects, objects, id);
    if Ends(kept, id) > 0 { KeptEnd(s, kept, id); }
  }

  lemma {:induction false} KeptEnd(s: Space, kept: seq<Pair>, id: Id)
    requires Ends(kept, id) > 0 && forall p <- kept :: JudgeIn(s, p) == Kept
    ensures id in s.objects && !s.objects[id].drop
  {
    EndsSome(kept, id);
    var i :| 0 <= i < |kept| && (kept[i].watcher == id || kept[i].marker == id);
    assert kept[i] in kept && JudgeIn(s, kept[i]) == Kept;
  }

  lemma {:induction false} SettleKeeps(s: Space)
    requires Inv(s)
    ensures Inv(s.(objects := Settled(s.objects)))
  {
    var t := Settled(s.objects);
    forall id ensures RefOk(t, s.hot, id) { assert RefOk(s.objects, s.hot, id); }
    forall i | 0 <= i < |s.hot| ensures PairOk(t, s.hot[i]) { assert PairOk(s.objects, s.hot[i]); }
  }

  // ---------------------------------------------------------------- members

  /** Membership, and no repetition. */
  ghost predicate SetOk(objects: map<Id, Object>, order: seq<Id>, watchers: bool, moving: bool, r: seq<Id>) {
    && (forall id :: id in r <==> (id in order && id in objects && objects[id].move == moving
                                   && (if watchers then objects[id].watcher else objects[id].marker)))
    && (forall i, j :: 0 <= i < j < |r| ==> r[i] != r[j])
  }

  lemma {:induction false} MembersAre(objects: map<Id, Object>, order: seq<Id>, watchers: bool, moving: bool)
    requires forall i, j :: 0 <= i < j < |order| ==> order[i] != order[j]
    ensures SetOk(objects, order, watchers, moving, Members(objects, order, watchers, moving))
  {
    if order != [] {
      var m := |order| - 1;
      MembersAre(objects, order[..m], watchers, moving);
      assert order == order[..m] + [order[m]];
      assert order[m] !in order[..m];
    }
  }

  ghost predicate AllDifferent(ps: seq<(Id, Id)>) { forall i, j :: 0 <= i < j < |ps| ==> ps[i] != ps[j] }

  lemma {:induction false} RowIs(w: Id, ms: seq<Id>)
    requires forall i, j :: 0 <= i < j < |ms| ==> ms[i] != ms[j]
    ensures forall p :: p in Row(w, ms) <==> p.0 == w && p.1 in ms
    ensures AllDifferent(Row(w, ms))
  {
    if ms != [] {
      var m := |ms| - 1;
      RowIs(w, ms[..m]);
      assert ms == ms[..m] + [ms[m]];
      assert ms[m] !in ms[..m];
      AppendDifferent(Row(w, ms[..m]), (w, ms[m]));
    }
  }

  lemma {:induction false} AppendDifferent(ps: seq<(Id, Id)>, p: (Id, Id))
    requires AllDifferent(ps) && p !in ps
    ensures AllDifferent(ps + [p])
  {
  }

  lemma {:induction false} JoinDifferent(a: seq<(Id, Id)>, b: seq<(Id, Id)>)
    requires AllDifferent(a) && AllDifferent(b) && forall p <- a :: p !in b
    ensures AllDifferent(a + b)
  {
    forall i, j | 0 <= i < j < |a + b| ensures (a + b)[i] != (a + b)[j] {
      if i < |a| <= j { assert a[i] in a && b[j - |a|] in b; }
    }
  }

  lemma {:induction false} RowsAre(ws: seq<Id>, ms: seq<Id>)
    requires forall i, j :: 0 <= i < j < |ws| ==> ws[i] != ws[j]
    requires forall i, j :: 0 <= i < j < |ms| ==> ms[i] != ms[j]
    ensures forall p :: p in Rows(ws, ms) <==> p.0 in ws && p.1 in ms
    ensures AllDifferent(Rows(ws, ms))
  {
    if ws != [] {
      var m := |ws| - 1;
      RowsAre(ws[..m], ms);
      RowIs(ws[m], ms);
      assert ws == ws[..m] + [ws[m]];
      assert ws[m] !in ws[..m];
      JoinDifferent(Rows(ws[..m], ms), Row(ws[m], ms));
    }
  }

  /** Watcher and marker, of which one has moved. */
  predicate Candidate(objects: map<Id, Object>, p: (Id, Id)) {
    && p.0 in objects && p.1 in objects && objects[p.0].watcher && objects[p.1].marker
    && (objects[p.0].move || objects[p.1].move)
  }

  lemma {:induction false} CandidatesAre(objects: map<Id, Object>, order: seq<Id>)
    requires Lists(order, objects)
    ensures forall p :: p in Candidates(objects, order) <==> Candidate(objects, p)
    ensures AllDifferent(Candidates(objects, order))
  {
    MembersAre(objects, order, true, false);
    MembersAre(objects, order, true, true);
    MembersAre(objects, order, false, false);
    MembersAre(objects, order, false, true);
    var ws, wm := Members(objects, order, true, false), Members(objects, order, true, true);
    var ms, mm := Members(objects, order, false, false), Members(objects, order, false, true);
    RowsAre(ws, mm);
    RowsAre(wm, ms);
    RowsAre(wm, mm);
    JoinDifferent(Rows(ws, mm), Rows(wm, ms));
    JoinDifferent(Rows(ws, mm) + Rows(wm, ms), Rows(wm, mm));
  }

  // --------------------------------------------------------------- meetings

  /** The same objects up to their reference counts. */
  ghost predicate SameBut(a: map<Id, Object>, b: map<Id, Object>) {
    forall id :: (id in a <==> id in b) && (id in a ==> b[id] == a[id].(ref := b[id].ref))
  }

  lemma {:induction false} GrabSame(s: Space, id: Id)
    ensures SameBut(s.objects, Grab(s, id).objects)
  {
  }

  lemma {:induction false} MeetSame(s: Space, w: Id, m: Id)
    ensures SameBut(s.objects, Meet(s, w, m).objects)
  {
    GrabSame(s, w);
    GrabSame(Grab(s, w), m);
    hide Dist2, Grab;
  }

  lemma {:induction false} MeetKeeps(s: Space, w: Id, m: Id)
    requires Inv(s)
    requires w in s.objects && m in s.objects ==> !s.objects[w].move && !s.objects[m].move
    requires forall i :: 0 <= i < |s.hot| ==> Key(s.hot[i]) != (w, m)
    ensures Inv(Meet(s, w, m)) && SameBut(s.objects, Meet(s, w, m).objects)
    ensures Meet(s, w, m).hot == s.hot
            || (|Meet(s, w, m).hot| > 0 && Key(Meet(s, w, m).hot[0]) == (w, m) && Meet(s, w, m).hot[1..] == s.hot)
  {
    MeetSame(s, w, m);
    hide SameBut, Dist2;
    var t := Meet(s, w, m);
    if t != s {
      var p := Pair(w, m, s.objects[w].version, s.objects[m].version);
      assert t.hot == [p] + s.hot;
      forall id ensures RefOk(t.objects, t.hot, id) {
        assert RefOk(s.objects, s.hot, id);
        EndsConcat([p], s.hot, id);
        EndsOne(p, id);
      }
      forall i | 0 <= i < |t.hot| ensures PairOk(t.objects, t.hot[i]) {
        if i > 0 { assert PairOk(s.objects, s.hot[i - 1]) && t.hot[i] == s.hot[i - 1]; }
      }
      forall i, j | 0 <= i < j < |t.hot| ensures Key(t.hot[i]) != Key(t.hot[j]) {
        assert t.hot[j] == s.hot[j - 1] && (i > 0 ==> t.hot[i] == s.hot[i - 1]);
      }
    }
  }

  /** The keys of the hot pairs after some meetings. */
  ghost predicate KeysFrom(hot: seq<Pair>, before: seq<Pair>, pairs: seq<(Id, Id)>) {
    forall i :: 0 <= i < |hot| ==> hot[i] in before || Key(hot[i]) in pairs
  }

  lemma {:induction false} MeetAllKeeps(s: Space, pairs: seq<(Id, Id)>)
    requires Inv(s) && AllDifferent(pairs)
    requires forall p <- pairs :: p.0 in s.objects && p.1 in s.objects ==> !s.objects[p.0].move && !s.objects[p.1].move
    requires forall i :: 0 <= i < |s.hot| ==> Key(s.hot[i]) !in pairs
    ensures Inv(MeetAll(s, pairs)) && SameBut(s.objects, MeetAll(s, pairs).objects)
    ensures KeysFrom(MeetAll(s, pairs).hot, s.hot, pairs)
  {
    if pairs != [] {
      var n := |pairs| - 1;
      var p := pairs[n];
      forall q | q in pairs[..n] ensures q in pairs {}
      MeetAllKeeps(s, pairs[..n]);
      var t := MeetAll(s, pairs[..n]);
      assert p in pairs && p !in pairs[..n];
      forall i | 0 <= i < |t.hot| ensures Key(t.hot[i]) != p {
        if t.hot[i] in s.hot { var k :| 0 <= k < |s.hot| && s.hot[k] == t.hot[i]; }
      }
      MeetKeeps(t, p.0, p.1);
      var u := Meet(t, p.0, p.1);
      forall i | 0 <= i < |u.hot| ensures u.hot[i] in s.hot || Key(u.hot[i]) in pairs {
        if u.hot != t.hot && i > 0 { assert u.hot[i] == t.hot[i - 1]; }
      }
    }
  }

  lemma {:induction false} MeetReportsAre(s: Space, pairs: seq<(Id, Id)>)
    requires AllDifferent(pairs)
    ensures forall p :: p in MeetReports(s, pairs) <==> p in pairs && Meets(s, p.0, p.1)
    ensures AllDifferent(MeetReports(s, pairs))
  {
    if pairs != [] {
      var n := |pairs| - 1;
      MeetReportsAre(s, pairs[..n]);
      assert pairs == pairs[..n] + [pairs[n]];
      assert pairs[n] !in pairs[..n];
      if Meets(s, pairs[n].0, pairs[n].1) { AppendDifferent(MeetReports(s, pairs[..n]), pairs[n]); }
      else { assert MeetReports(s, pairs[..n]) + [] == MeetReports(s, pairs[..n]); }
    }
  }

  // --------------------------------------------------------------- messages

  /** A hot pair whose versions still hold has two ends that have not moved. */
  lemma {:induction false} HotRest(s: Space, p: Pair)
    requires Inv(s) && p in s.hot && JudgeIn(s, p) != Stale
    ensures !Candidate(s.objects, Key(p)) && p.watcher in s.objects && p.marker in s.objects
    ensures !s.objects[p.watcher].move && !s.objects[p.marker].move
  {
    var k :| 0 <= k < |s.hot| && s.hot[k] == p;
    assert PairOk(s.objects, s.hot[k]);
  }

  lemma {:induction false} CandidateSame(s: Space, p: (Id, Id))
    requires Inv(s)
    ensures Candidate(Flushed(s).objects, p) <==> Candidate(s.objects, p)
  {
    FlushKeeps(s);
    assert SameFor(s.objects, Flushed(s).objects, p.0) && SameFor(s.objects, Flushed(s).objects, p.1);
  }

  lemma {:induction false} MessageKeeps(s: Space, order: seq<Id>)
    requires Inv(s) && Lists(order, Flushed(s).objects)
    ensures Inv(Message(s, order))
  {
    var f := Flushed(s);
    FlushKeeps(s);
    SettleKeeps(f);
    CandidatesAre(f.objects, order);
    JudgedIn(s, s.hot, Kept);
    forall i | 0 <= i < |f.hot| ensures Key(f.hot[i]) !in Candidates(f.objects, order) {
      assert f.hot[i] in Judged(s, s.hot, Kept);
      HotRest(s, f.hot[i]);
      CandidateSame(s, Key(f.hot[i]));
    }
    MeetAllKeeps(f.(objects := Settled(f.objects)), Candidates(f.objects, order));
  }

  /** A watcher and a marker that a message must report. */
  predicate Due(s: Space, p: (Id, Id)) {
    || (p.0 != p.1 && Candidate(s.objects, p) && Dist2(s.objects[p.0].position, s.objects[p.1].position) < AOI_RADIS2)
    || exists h <- s.hot :: Key(h) == p && JudgeIn(s, h) == Reported
  }

  lemma {:induction false} MeetsSame(s: Space, p: (Id, Id))
    requires Inv(s) && Candidate(s.objects, p)
    ensures var f := Flushed(s);
            Meets(f.(objects := Settled(f.objects)), p.0, p.1)
            <==> p.0 != p.1 && Dist2(s.objects[p.0].position, s.objects[p.1].position) < AOI_RADIS2
  {
    FlushKeeps(s);
    CandidateSame(s, p);
    assert SameFor(s.objects, Flushed(s).objects, p.0) && SameFor(s.objects, Flushed(s).objects, p.1);
  }

  lemma {:induction false} KeysIn(ps: seq<Pair>, k: (Id, Id))
    ensures k in Keys(ps) <==> exists h <- ps :: Key(h) == k
  {
    if k in Keys(ps) {
      var i :| 0 <= i < |ps| && Keys(ps)[i] == k;
      assert ps[i] in ps && Key(ps[i]) == k;
    }
  }

  lemma {:induction false} FlushReportsAre(s: Space, p: (Id, Id))
    requires Inv(s)
    ensures p in FlushReports(s) <==> exists h <- s.hot :: Key(h) == p && JudgeIn(s, h) == Reported
  {
    FlushKeeps(s);
    JudgedIn(s, s.hot, Reported);
    KeysIn(Judged(s, s.hot, Reported), p);
  }

  /** One message reports exactly the pairs that are due: a watcher and a marker closer
      than the radius of which one has moved, and the hot pairs, still valid, that are
      closer now. */
  lemma {:induction false} ReportsExactly(s: Space, order: seq<Id>, p: (Id, Id))
    requires Inv(s) && Lists(order, Flushed(s).objects)
    ensures p in Reports(s, order) <==> Due(s, p)
  {
    var f := Flushed(s);
    CandidatesAre(f.objects, order);
    MeetReportsAre(f.(objects := Settled(f.objects)), Candidates(f.objects, order));
    FlushReportsAre(s, p);
    CandidateSame(s, p);
    if Candidate(s.objects, p) { MeetsSame(s, p); }
  }

  lemma {:induction false} KeysDifferent(ps: seq<Pair>)
    requires Single(ps)
    ensures AllDifferent(Keys(ps))
  {
  }

  /** No pair is reported twice by one message. */
  lemma {:induction false} ReportsOnce(s: Space, order: seq<Id>)
    requires Inv(s) && Lists(order, Flushed(s).objects)
    ensures AllDifferent(Reports(s, order))
  {
    var f := Flushed(s);
    var cs := Candidates(f.objects, order);
    var late := MeetReports(f.(objects := Settled(f.objects)), cs);
    FlushKeeps(s);
    CandidatesAre(f.objects, order);
    MeetReportsAre(f.(objects := Settled(f.objects)), cs);
    JudgedSingle(s, s.hot, Reported);
    KeysDifferent(Judged(s, s.hot, Reported));
    forall p | p in FlushReports(s) ensures p !in late {
      FlushReportsAre(s, p);
      var h :| h in s.hot && Key(h) == p && JudgeIn(s, h) == Reported;
      HotRest(s, h);
      CandidateSame(s, p);
    }
    JoinDifferent(FlushReports(s), late);
  }

  // ------------------------------------------------------------------- runs

  lemma {:induction false} RunInv(ops: seq<Op>)
    ensures RunAll(ops).At? ==> Inv(RunAll(ops).space)
  {
    if ops != [] && RunAll(ops).At? {
      RunInv(ops[..|ops| - 1]);
      var s := RunAll(ops[..|ops| - 1]).space;
      match ops[|ops| - 1]
      case OpUpdate(id, mode, pos) => UpdateKeeps(s, id, mode, pos);
      case OpMessage(order) => MessageKeeps(s, order);
    }
  }

  /** Over every run: each object's reference count is one until it is dropped, plus its
      ends of hot pairs; it is never zero while the object exists, and no pair dangles. */
  lemma {:induction false} RefsAddUp(ops: seq<Op>, id: Id)
    requires RunAll(ops).At?
    ensures var s := RunAll(ops).space;
            && (id in s.objects ==> s.objects[id].ref == (if s.objects[id].drop then 0 else 1) + Ends(s.hot, id) > 0)
            && (id !in s.objects ==> forall h <- s.hot :: h.watcher != id && h.marker != id)
  {
    RunInv(ops);
    var s := RunAll(ops).space;
    assert RefOk(s.objects, s.hot, id);
    forall h | h in s.hot && id !in s.objects ensures h.watcher != id && h.marker != id {
      var i :| 0 <= i < |s.hot| && s.hot[i] == h;
      EndsIn(s.hot, i);
    }
  }

  /** Over every run: a message reports what is due, and each pair once. */
  lemma {:induction false} RunReports(ops: seq<Op>, order: seq<Id>)
    requires RunAll(ops).At? && Lists(order, Flushed(RunAll(ops).space).objects)
    ensures var s := RunAll(ops).space;
            && (forall p :: p in Reports(s, order) <==> Due(s, p))
            && (forall i, j :: 0 <= i < j < |Reports(s, order)| ==> Reports(s, order)[i] != Reports(s, order)[j])
  {
    RunInv(ops);
    var s := RunAll(ops).space;
    forall p ensures p in Reports(s, order) <==> Due(s, p) { ReportsExactly(s, order, p); }
    ReportsOnce(s, order);
  }
}
