/** The two passes of lua-sharedata.c that put the keys of a table into its slots, for
    any source table: keys may be cut into the array part or to one another. */
module SharePasses {
  import opened ShareIndex

  predicate IsHash(entries: seq<Entry>, size: nat, j: nat)
    requires j < |entries|
  {
    !InArray(size, entries[j].key)
  }

  /** The first of the first `m` entries whose key has its home in slot `s`, or -1. */
  function FirstOf(entries: seq<Entry>, size: nat, n: nat, s: nat, m: nat): (f: int)
    requires n > 0 && m <= |entries|
    ensures f < m
    ensures f >= 0 ==> IsHash(entries, size, f) && Home(entries[f].key, n) == s
    ensures f < 0 ==> forall j :: 0 <= j < m && IsHash(entries, size, j) ==> Home(entries[j].key, n) != s
  {
    if m == 0 then -1
    else
      var f := FirstOf(entries, size, n, s, m - 1);
      if f >= 0 then f
      else if IsHash(entries, size, m - 1) && Home(entries[m - 1].key, n) == s then m - 1 else -1
  }

  /** The first entry at the home of entry `j`. */
  function Leader(entries: seq<Entry>, size: nat, n: nat, j: nat): (f: int)
    requires n > 0 && j < |entries|
    ensures IsHash(entries, size, j) ==> 0 <= f
  {
    FirstOf(entries, size, n, Home(entries[j].key, n), |entries|)
  }

  /** Is the key of entry `j` that of the first entry at its home? */
  predicate Shadowed(entries: seq<Entry>, size: nat, n: nat, j: nat)
    requires n > 0 && j < |entries|
  {
    var f := Leader(entries, size, n, j);
    0 <= f && f != j && entries[f].key == entries[j].key
  }

  /** The first pass has been over the first `i` entries: each slot holds the first of them
      that has its home there. */
  ghost predicate FirstPass(hash: seq<Node>, chains: seq<seq<nat>>, who: seq<int>, entries: seq<Entry>,
                            size: nat, i: nat) {
    && hash != [] && i <= |entries| && Linked(hash, chains) && Owned(hash, who, entries)
    && (forall s :: 0 <= s < |hash| ==> who[s] == FirstOf(entries, size, |hash|, s, i))
  }

  /** Is entry `j` in a slot when the second pass has been over the first `i` entries? */
  ghost predicate Placed(entries: seq<Entry>, size: nat, n: nat, j: nat, i: nat)
    requires n > 0 && j < |entries|
  {
    IsHash(entries, size, j) && (Leader(entries, size, n, j) == j || (j < i && !Shadowed(entries, size, n, j)))
  }

  ghost function PlacedBy(entries: seq<Entry>, size: nat, n: nat, i: nat): set<int>
    requires n > 0
  {
    set j | 0 <= j < |entries| && Placed(entries, size, n, j, i)
  }

  ghost predicate SecondPass(hash: seq<Node>, chains: seq<seq<nat>>, who: seq<int>, entries: seq<Entry>,
                             size: nat, i: nat) {
    && hash != [] && i <= |entries| && Linked(hash, chains) && Owned(hash, who, entries)
    && Owners(who) == PlacedBy(entries, size, |hash|, i)
    && (forall s :: 0 <= s < |hash| && FirstOf(entries, size, |hash|, s, |entries|) >= 0 ==>
          who[s] == FirstOf(entries, size, |hash|, s, |entries|))
  }

  lemma {:induction false} AllEmpty(hash: seq<Node>, chains: seq<seq<nat>>, who: seq<int>, entries: seq<Entry>,
                                    size: nat)
    requires hash != [] && |hash| == |chains| == |who|
    requires forall i :: 0 <= i < |hash| ==> hash[i] == EMPTY && chains[i] == [] && who[i] == -1
    ensures FirstPass(hash, chains, who, entries, size, 0)
  {
  }

  /** An entry that goes into the array part, or whose home is taken. */
  lemma {:induction false} NothingPlaced(hash: seq<Node>, chains: seq<seq<nat>>, who: seq<int>, entries: seq<Entry>,
                                         size: nat, i: nat)
    requires FirstPass(hash, chains, who, entries, size, i) && i < |entries|
    requires IsHash(entries, size, i) ==> Filled(hash[Home(entries[i].key, |hash|)])
    ensures FirstPass(hash, chains, who, entries, size, i + 1)
  {
    hide Linked, Home, KeyHash;
  }

  /** The first entry at its home. */
  lemma {:induction false} FirstPlaced(hash: seq<Node>, chains: seq<seq<nat>>, who: seq<int>, entries: seq<Entry>,
                                       size: nat, i: nat)
    requires FirstPass(hash, chains, who, entries, size, i) && i < |entries| && IsHash(entries, size, i)
    requires !Filled(hash[Home(entries[i].key, |hash|)]) && entries[i].value != Nil
    ensures |chains| == |who| == |hash|
    ensures var p := Home(entries[i].key, |hash|);
            FirstPass(AlonePlaced(hash, p, entries[i]), chains[p := [p]], who[p := i], entries, size, i + 1)
  {
    var p := Home(entries[i].key, |hash|);
    assert |chains| == |hash|;
    PlaceAlone(hash, chains, p, entries[i]);
    hide Linked, Home, KeyHash;
    var h2, w2 := AlonePlaced(hash, p, entries[i]), who[p := i];
    forall s | 0 <= s < |h2| ensures w2[s] == FirstOf(entries, size, |h2|, s, i + 1) {
      assert who[s] == FirstOf(entries, size, |hash|, s, i);
    }
    hide FirstOf;
    assert forall s :: 0 <= s < |who| ==> who[s] < i;
  }

  lemma {:induction false} BetweenPasses(hash: seq<Node>, chains: seq<seq<nat>>, who: seq<int>,
                                         entries: seq<Entry>, size: nat)
    requires FirstPass(hash, chains, who, entries, size, |entries|)
    ensures SecondPass(hash, chains, who, entries, size, 0)
  {
    hide Linked, Home, KeyHash, FirstOf;
    var n := |hash|;
    forall j ensures j in Owners(who) <==> j in PlacedBy(entries, size, n, 0) {
      if j in Owners(who) {
        var s :| 0 <= s < |who| && who[s] >= 0 && who[s] == j;
        assert j == FirstOf(entries, size, n, s, |entries|);
      }
      if j in PlacedBy(entries, size, n, 0) {
        assert who[Home(entries[j].key, n)] == j;
      }
    }
  }

  /** An entry that has its slot, or whose key its home holds already. */
  lemma {:induction false} SkipKeeps(hash: seq<Node>, chains: seq<seq<nat>>, who: seq<int>, entries: seq<Entry>,
                                     size: nat, i: nat)
    requires SecondPass(hash, chains, who, entries, size, i) && i < |entries|
    requires IsHash(entries, size, i) ==> hash[Home(entries[i].key, |hash|)].key == entries[i].key
    ensures SecondPass(hash, chains, who, entries, size, i + 1)
  {
    hide Linked, Home, KeyHash, FirstOf, Owners;
    var n := |hash|;
    if IsHash(entries, size, i) {
      var f := Leader(entries, size, n, i);
      assert who[Home(entries[i].key, n)] == f;
    }
    assert PlacedBy(entries, size, n, i + 1) == PlacedBy(entries, size, n, i);
  }

  /** The home of a key is taken after the first pass, by the first entry there. */
  lemma {:induction false} HomeTaken(hash: seq<Node>, chains: seq<seq<nat>>, who: seq<int>, entries: seq<Entry>,
                                     size: nat, i: nat)
    requires SecondPass(hash, chains, who, entries, size, i) && i < |entries| && IsHash(entries, size, i)
    ensures |chains| == |hash| == |who|
    ensures var p := Home(entries[i].key, |hash|);
            && Filled(hash[p]) && chains[p] != []
            && (hash[p].key != entries[i].key ==> i !in Owners(who) && PlacedBy(entries, size, |hash|, i + 1)
                                                                       == PlacedBy(entries, size, |hash|, i) + {i})
  {
    var p := Home(entries[i].key, |hash|);
    assert SlotOk(hash, chains, p);
    hide Linked, KeyHash, FirstOf;
    var f := Leader(entries, size, |hash|, i);
    assert who[p] == f;
    assert Home(hash[p].key, |hash|) == p;
    hide Home;
  }

  /** One more entry gets an empty slot, behind the first of its chain. */
  lemma {:induction false} LinkKeeps(hash: seq<Node>, chains: seq<seq<nat>>, who: seq<int>, entries: seq<Entry>,
                                     size: nat, i: nat, n: nat)
    requires SecondPass(hash, chains, who, entries, size, i) && i < |entries| && IsHash(entries, size, i)
    requires hash[Home(entries[i].key, |hash|)].key != entries[i].key && entries[i].value != Nil
    requires n < |hash| == |chains| == |who| && !Filled(hash[n]) && chains[Home(entries[i].key, |hash|)] != []
    ensures var p := Home(entries[i].key, |hash|);
            SecondPass(ChainPlaced(hash, p, n, entries[i]), chains[p := [p, n] + chains[p][1..]], who[n := i],
                       entries, size, i + 1)
  {
    var p := Home(entries[i].key, |hash|);
    HomeTaken(hash, chains, who, entries, size, i);
    PlaceLinked(hash, chains, p, n, entries[i]);
    hide Linked, Home, KeyHash, FirstOf, PlacedBy, Owners;
    OwnersMore(who, n, i);
    StillOwned(hash, who, entries, p, n, i);
  }

  lemma {:induction false} OwnersMore(who: seq<int>, n: nat, i: nat)
    requires n < |who| && who[n] < 0
    ensures Owners(who[n := i]) == Owners(who) + {i}
  {
    var w2 := who[n := i];
    forall j | j in Owners(who) ensures j in Owners(w2) {
      var s :| 0 <= s < |who| && who[s] >= 0 && who[s] == j;
      assert w2[s] == j;
    }
    assert w2[n] == i;
  }

  lemma {:induction false} StillOwned(hash: seq<Node>, who: seq<int>, entries: seq<Entry>, p: nat, n: nat, i: nat)
    requires Owned(hash, who, entries) && p < |hash| && n < |hash| && p != n && i < |entries|
    requires who[n] < 0 && i !in Owners(who) && entries[i].value != Nil
    ensures Owned(ChainPlaced(hash, p, n, entries[i]), who[n := i], entries)
  {
    hide KeyHash;
    var w2 := who[n := i];
    forall s | 0 <= s < |who| && s != n ensures w2[s] == who[s] && (who[s] >= 0 ==> who[s] != i) {
      assert who[s] >= 0 ==> who[s] in Owners(who);
    }
    hide Owners;
  }

  // ---------------------------------------------------------------- results

  const INT_MAX := 0x7fff_ffff

  /** Every key that is counted is outside the array part when it is cut as well, and is not
      that of the first entry at its home. */
  predicate NoneSkipped(source: seq<Entry>, size: nat, n: nat)
    requires n > 0
  {
    forall j :: 0 <= j < |source| && !InArray(size, source[j].key) ==>
      IsHash(CutAll(source), size, j) && !Shadowed(CutAll(source), size, n, j)
  }

  /** Every key that is counted is outside the array part when it is cut as well, and no two
      of them are cut to one. */
  predicate CutsApart(source: seq<Entry>, size: nat) {
    && (forall j :: 0 <= j < |source| && !InArray(size, source[j].key) ==> !InArray(size, CutKey(source[j].key)))
    && (forall i, j :: 0 <= i < j < |source| && !InArray(size, source[i].key) && !InArray(size, source[j].key) ==>
          CutKey(source[i].key) != CutKey(source[j].key))
  }

  ghost predicate AllFilled(hash: seq<Node>) { forall s :: 0 <= s < |hash| ==> Filled(hash[s]) }

  ghost predicate ItemsOk(items: seq<Value>, entries: seq<Entry>) {
    forall k :: 0 <= k < |items| ==> items[k] == Get(entries, IntKey(k + 1))
  }

  /** A table that holds the entries. */
  ghost predicate Built(items: seq<Value>, hash: seq<Node>, chains: seq<seq<nat>>, entries: seq<Entry>) {
    && Linked(hash, chains) && Distinct(hash) && AllFilled(hash) && KeysIn(hash) == HashKeys(entries, |items|)
    && (forall s :: 0 <= s < |hash| ==> hash[s].value == Get(entries, hash[s].key)) && ItemsOk(items, entries)
  }

  lemma {:induction false} ArrayKeyFits(size: nat, k: Key)
    requires size <= INT_MAX && InArray(size, k)
    ensures CutKey(k) == k
  {
  }

  lemma {:induction false} OwnersCounted(hash: seq<Node>, chains: seq<seq<nat>>, who: seq<int>, source: seq<Entry>,
                                         size: nat, i: nat)
    requires size <= INT_MAX && SecondPass(hash, chains, who, CutAll(source), size, i)
    ensures Owners(who) <= Counted(source, size)
  {
    hide Linked, Owned, Owners, FirstOf, Shadowed, Leader, Home;
    forall j | j in PlacedBy(CutAll(source), size, |hash|, i) ensures j in Counted(source, size) {
      if InArray(size, source[j].key) { ArrayKeyFits(size, source[j].key); }
    }
  }

  /** While an entry has no slot there is room for it. */
  lemma {:induction false} RoomFor(hash: seq<Node>, chains: seq<seq<nat>>, who: seq<int>, source: seq<Entry>,
                                   size: nat, i: nat)
    requires size <= INT_MAX && |Counted(source, size)| == |hash| && i < |source|
    requires SecondPass(hash, chains, who, CutAll(source), size, i)
    requires i !in Owners(who) && IsHash(CutAll(source), size, i)
    ensures exists s: nat :: s < |hash| && !Filled(hash[s])
  {
    OwnersCounted(hash, chains, who, source, size, i);
    Room(who, Counted(source, size));
    if InArray(size, source[i].key) { ArrayKeyFits(size, source[i].key); }
    hide Owners, Linked, PlacedBy;
    assert i in Counted(source, size);
    var s: nat :| s < |who| && who[s] < 0;
    assert !Filled(hash[s]);
  }

  /** Both passes fill every slot exactly when no counted entry is skipped. */
  lemma {:induction false} AllFilledExactly(hash: seq<Node>, chains: seq<seq<nat>>, who: seq<int>, source: seq<Entry>,
                                            size: nat)
    requires size <= INT_MAX && |Counted(source, size)| == |hash|
    requires SecondPass(hash, chains, who, CutAll(source), size, |source|)
    ensures AllFilled(hash) <==> NoneSkipped(source, size, |hash|)
  {
    OwnersCounted(hash, chains, who, source, size, |source|);
    Room(who, Counted(source, size));
    hide Owners, Linked, FirstOf, Home;
    assert AllFilled(hash) <==> !exists s: nat :: s < |who| && who[s] < 0;
    var placed := PlacedBy(CutAll(source), size, |hash|, |source|);
    forall j | 0 <= j < |source|
      ensures j in placed <==> IsHash(CutAll(source), size, j) && !Shadowed(CutAll(source), size, |hash|, j) {}
    if NoneSkipped(source, size, |hash|) {
      assert forall j :: j in Counted(source, size) ==> j in placed;
    } else {
      var j :| 0 <= j < |source| && !InArray(size, source[j].key)
               && !(IsHash(CutAll(source), size, j) && !Shadowed(CutAll(source), size, |hash|, j));
      assert j in Counted(source, size) && j !in placed;
    }
  }

  /** What is outside the array part when it is cut, was so before. */
  lemma {:induction false} HashIsCounted(source: seq<Entry>, size: nat, j: nat)
    requires size <= INT_MAX && j < |source| && IsHash(CutAll(source), size, j)
    ensures !InArray(size, source[j].key)
  {
    if InArray(size, source[j].key) { ArrayKeyFits(size, source[j].key); }
  }

  lemma {:induction false} ApartIsUnskipped(source: seq<Entry>, size: nat, n: nat)
    requires size <= INT_MAX && n > 0 && CutsApart(source, size)
    ensures NoneSkipped(source, size, n)
  {
    hide FirstOf, Home;
    forall j | 0 <= j < |source| && !InArray(size, source[j].key) ensures !Shadowed(CutAll(source), size, n, j) {
      if Shadowed(CutAll(source), size, n, j) {
        var f := Leader(CutAll(source), size, n, j);
        HashIsCounted(source, size, f);
        assert false;
      }
    }
  }

  /** The entry of a filled slot. */
  lemma {:induction false} OwnerOf(hash: seq<Node>, chains: seq<seq<nat>>, who: seq<int>, source: seq<Entry>, size: nat,
                                   s: nat)
    requires size <= INT_MAX && SecondPass(hash, chains, who, CutAll(source), size, |source|)
    requires s < |hash| && Filled(hash[s])
    ensures |who| == |hash| && 0 <= who[s] < |source| && hash[s].key == CutKey(source[who[s]].key)
    ensures hash[s].value == source[who[s]].value && IsHash(CutAll(source), size, who[s])
    ensures !InArray(size, source[who[s]].key)
  {
    hide Linked, FirstOf, Home;
    assert who[s] in Owners(who);
    HashIsCounted(source, size, who[s]);
  }

  /** The slot of a counted entry, when all slots are filled. */
  lemma {:induction false} SlotOf(hash: seq<Node>, chains: seq<seq<nat>>, who: seq<int>, source: seq<Entry>, size: nat,
                                  j: nat) returns (s: nat)
    requires size <= INT_MAX && |Counted(source, size)| == |hash|
    requires SecondPass(hash, chains, who, CutAll(source), size, |source|) && AllFilled(hash)
    requires j < |source| && !InArray(size, source[j].key)
    ensures s < |hash| && |who| == |hash| && who[s] == j && hash[s].key == CutKey(source[j].key)
  {
    OwnersCounted(hash, chains, who, source, size, |source|);
    Room(who, Counted(source, size));
    assert j in Counted(source, size);
    hide Linked, FirstOf, Home, PlacedBy, Counted;
    assert forall t: nat :: t < |who| ==> who[t] >= 0;
    assert j in Owners(who);
    s :| 0 <= s < |who| && who[s] >= 0 && who[s] == j;
  }

  /** Both passes fill every slot, each with a key of its own, exactly when cutting keeps the
      keys apart. */
  lemma {:induction false} SoundExactly(hash: seq<Node>, chains: seq<seq<nat>>, who: seq<int>, source: seq<Entry>,
                                        size: nat)
    requires size <= INT_MAX && |Counted(source, size)| == |hash|
    requires SecondPass(hash, chains, who, CutAll(source), size, |source|)
    ensures AllFilled(hash) && Distinct(hash) <==> CutsApart(source, size)
  {
    AllFilledExactly(hash, chains, who, source, size);
    if CutsApart(source, size) {
      ApartIsUnskipped(source, size, |hash|);
      ApartIsDistinct(hash, chains, who, source, size);
    } else if AllFilled(hash) && Distinct(hash) {
      FilledIsApart(hash, chains, who, source, size);
    }
  }

  lemma {:induction false} ApartIsDistinct(hash: seq<Node>, chains: seq<seq<nat>>, who: seq<int>, source: seq<Entry>,
                                           size: nat)
    requires size <= INT_MAX && SecondPass(hash, chains, who, CutAll(source), size, |source|) && CutsApart(source, size)
    ensures Distinct(hash)
  {
    hide SecondPass, CutAll;
    forall s, t | 0 <= s < t < |hash| && Filled(hash[s]) && Filled(hash[t]) ensures hash[s].key != hash[t].key {
      OwnerOf(hash, chains, who, source, size, s);
      OwnerOf(hash, chains, who, source, size, t);
      assert who[s] != who[t] by { DifferentOwners(hash, chains, who, source, size, s, t); }
    }
  }

  lemma {:induction false} DifferentOwners(hash: seq<Node>, chains: seq<seq<nat>>, who: seq<int>, source: seq<Entry>,
                                           size: nat, s: nat, t: nat)
    requires SecondPass(hash, chains, who, CutAll(source), size, |source|)
    requires s < t < |hash| && Filled(hash[s]) && Filled(hash[t])
    ensures |who| == |hash| && who[s] != who[t]
  {
    hide Linked, FirstOf, Home;
  }

  lemma {:induction false} FilledIsApart(hash: seq<Node>, chains: seq<seq<nat>>, who: seq<int>, source: seq<Entry>,
                                         size: nat)
    requires size <= INT_MAX && |Counted(source, size)| == |hash|
    requires SecondPass(hash, chains, who, CutAll(source), size, |source|) && AllFilled(hash) && Distinct(hash)
    ensures CutsApart(source, size)
  {
    AllFilledExactly(hash, chains, who, source, size);
    hide SecondPass, Counted, Shadowed, AllFilled;
    forall i, j | 0 <= i < j < |source| && !InArray(size, source[i].key) && !InArray(size, source[j].key)
      ensures CutKey(source[i].key) != CutKey(source[j].key)
    {
      var s := SlotOf(hash, chains, who, source, size, i);
      var t := SlotOf(hash, chains, who, source, size, j);
      assert s != t;
      assert AllFilled(hash);
      BothFilled(hash, s, t);
    }
  }

  lemma {:induction false} BothFilled(hash: seq<Node>, s: nat, t: nat)
    requires AllFilled(hash) && Distinct(hash) && s < |hash| && t < |hash| && s != t
    ensures hash[s].key != hash[t].key
  {
  }

  lemma {:induction false} CutOneEach(source: seq<Entry>, size: nat)
    requires size <= INT_MAX && OneEach(source) && CutsApart(source, size)
    ensures OneEach(CutAll(source))
  {
    forall i, j | 0 <= i < j < |source| ensures CutKey(source[i].key) != CutKey(source[j].key) {
      if InArray(size, source[i].key) { ArrayKeyFits(size, source[i].key); }
      if InArray(size, source[j].key) { ArrayKeyFits(size, source[j].key); }
    }
  }

  /** Then the table holds the entries. */
  lemma {:induction false} ApartIsBuilt(items: seq<Value>, hash: seq<Node>, chains: seq<seq<nat>>, who: seq<int>,
                                        source: seq<Entry>)
    requires |items| <= INT_MAX && OneEach(source) && CutsApart(source, |items|)
    requires |Counted(source, |items|)| == |hash| && SecondPass(hash, chains, who, CutAll(source), |items|, |source|)
    requires ItemsOk(items, CutAll(source))
    ensures Built(items, hash, chains, CutAll(source))
  {
    var size, entries := |items|, CutAll(source);
    SoundExactly(hash, chains, who, source, size);
    CutOneEach(source, size);
    hide SecondPass, Counted, CutsApart, Linked, Distinct, ItemsOk;
    forall s | 0 <= s < |hash|
      ensures hash[s].value == Get(entries, hash[s].key) && hash[s].key in HashKeys(entries, size)
    {
      OwnerOf(hash, chains, who, source, size, s);
      GetAt(entries, who[s]);
    }
    forall k | k in HashKeys(entries, size) ensures k in KeysIn(hash) {
      var j: nat :| j < |entries| && !InArray(size, entries[j].key) && entries[j].key == k;
      HashIsCounted(source, size, j);
      var s := SlotOf(hash, chains, who, source, size, j);
      assert Filled(hash[s]);
    }
    assert Linked(hash, chains) by { LinkedIs(hash, chains, who, entries, size); }
  }

  lemma {:induction false} LinkedIs(hash: seq<Node>, chains: seq<seq<nat>>, who: seq<int>, entries: seq<Entry>,
                                    size: nat)
    requires SecondPass(hash, chains, who, entries, size, |entries|)
    ensures Linked(hash, chains)
  {
  }

  /** The array part, one entry further. */
  lemma {:induction false} ItemSet(items: seq<Value>, entries: seq<Entry>, i: nat)
    requires i < |entries| && ItemsOk(items, entries[..i])
    ensures var e := entries[i];
            ItemsOk(if InArray(|items|, e.key) then items[e.key.n - 1 := e.value] else items, entries[..i + 1])
  {
    assert entries[..i + 1][..i] == entries[..i];
  }

  /** A table whose keys are all in the array part. */
  lemma {:induction false} OnlyArray(items: seq<Value>, source: seq<Entry>)
    requires |items| <= INT_MAX && CountHash(source, |items|) == 0 && ItemsOk(items, source)
    ensures CutsApart(source, |items|) && Built(items, [], [], CutAll(source)) && CutAll(source) == source
  {
    CountSize(source, |items|);
    forall j | 0 <= j < |source| ensures InArray(|items|, source[j].key) && CutKey(source[j].key) == source[j].key {
      assert j !in Counted(source, |items|);
      ArrayKeyFits(|items|, source[j].key);
    }
    assert CutAll(source) == source;
  }
}
