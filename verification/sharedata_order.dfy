/** Searching the slots of a shared table, and the order of its keys. */
module ShareOrder {
  import opened Basics
  import opened ShareIndex
  import opened SharePasses

  // ---------------------------------------------------------------- reading

  /** The end of a search; `Unset` stands for the use of a slot that nobody has set. */
  datatype Found = Slot(n: nat) | Missing | Unset

  /** What reading a key gives; a table as key is refused. */
  datatype Read = Got(value: Value) | Undefined | RefusedRead

  /** What asking for the next key gives; `Stray` stands for the use of a slot that nobody has set. */
  datatype Next = After(key: Option<Key>) | Refused | Stray

  /** The place of slot `n` in the chain that it is on. */
  lemma {:induction false} InChain(hash: seq<Node>, chains: seq<seq<nat>>, n: nat) returns (q: nat, j: nat)
    requires Linked(hash, chains) && n < |hash| && Filled(hash[n])
    ensures q == Home(hash[n].key, |hash|) && q < |chains| && j < |chains[q]| && chains[q][j] == n
    ensures ChainOk(hash, chains[q], q)
    ensures hash[n].keyhash == KeyHash(hash[n].key) && (n == q ==> j == 0)
  {
    hide KeyHash;
    q := Home(hash[n].key, |hash|);
    assert SlotOk(hash, chains, n) && ChainOk(hash, chains[q], q);
    j :| 0 <= j < |chains[q]| && chains[q][j] == n;
  }

  /** The first `j` places of a chain do not hold the key. */
  ghost predicate Unseen(hash: seq<Node>, chain: seq<nat>, j: nat, k: Key)
    requires j <= |chain|
  {
    forall l :: 0 <= l < j && chain[l] < |hash| ==> hash[chain[l]].key != k
  }

  /** Slot `n` is the first one with the key on the chain of its home. */
  ghost predicate Finds(hash: seq<Node>, chains: seq<seq<nat>>, k: Key, n: nat) {
    && n < |hash| == |chains| && hash[n].key == k
    && exists j: nat :: LiesAt(chains[Home(k, |hash|)], j, n) && Unseen(hash, chains[Home(k, |hash|)], j, k)
  }

  predicate LiesAt(chain: seq<nat>, j: nat, n: nat) { j < |chain| && chain[j] == n }

  /** There is at most one such slot, and none when the key is not there. */
  lemma {:induction false} FindsOne(hash: seq<Node>, chains: seq<seq<nat>>, k: Key, m: nat, n: nat)
    requires Linked(hash, chains) && Finds(hash, chains, k, m)
    ensures !Absent(hash, k) && (Finds(hash, chains, k, n) ==> m == n)
  {
    hide KeyHash, Home;
    var chain := chains[Home(k, |hash|)];
    assert ChainOk(hash, chain, Home(k, |hash|));
    var i: nat :| LiesAt(chain, i, m) && Unseen(hash, chain, i, k);
    if Finds(hash, chains, k, n) {
      var j: nat :| LiesAt(chain, j, n) && Unseen(hash, chain, j, k);
      if i < j {
        assert false;
      } else if j < i {
        assert false;
      }
    }
  }

  lemma {:induction false} SearchStep(hash: seq<Node>, chain: seq<nat>, q: nat, j: nat, k: Key)
    requires ChainOk(hash, chain, q) && j < |chain|
    ensures chain[j] < |hash| && Filled(hash[chain[j]]) && Unseen(hash, chain, 0, k)
    ensures Home(hash[chain[j]].key, |hash|) == q
    ensures Unseen(hash, chain, j, k) && hash[chain[j]].key != k ==> Unseen(hash, chain, j + 1, k)
    ensures var next := hash[chain[j]].next;
            if next < 0 then j + 1 == |chain| else j + 1 < |chain| && chain[j + 1] == next < |hash|
  {
    hide Home;
  }

  lemma {:induction false} HashKnown(hash: seq<Node>, chains: seq<seq<nat>>, n: nat)
    requires Linked(hash, chains) && n < |hash| && Filled(hash[n])
    ensures hash[n].keyhash == KeyHash(hash[n].key)
  {
    assert SlotOk(hash, chains, n);
  }

  /** The search stops right: either the whole chain of the home was seen, or the home is
      on another chain. */
  lemma {:induction false} SearchEnds(hash: seq<Node>, chains: seq<seq<nat>>, k: Key)
    requires Linked(hash, chains) && hash != []
    requires var p := Home(k, |hash|);
             Filled(hash[p]) && (Home(hash[p].key, |hash|) == p ==> Unseen(hash, chains[p], |chains[p]|, k))
    ensures Absent(hash, k)
  {
    hide KeyHash;
    var p := Home(k, |hash|);
    assert ChainOk(hash, chains[p], p);
    assert chains[p] != [] ==> chains[p][0] == p;
    forall s | 0 <= s < |hash| && Filled(hash[s]) ensures hash[s].key != k {
      assert SlotOk(hash, chains, s) && s in chains[Home(hash[s].key, |hash|)];
    }
  }

  /** A home that is marked alone, with another hash. */
  lemma {:induction false} AloneElsewhere(hash: seq<Node>, chains: seq<seq<nat>>, k: Key)
    requires Linked(hash, chains) && hash != []
    requires var p := Home(k, |hash|); Filled(hash[p]) && hash[p].keyhash != KeyHash(k) && hash[p].nocolliding
    ensures Absent(hash, k)
  {
    hide KeyHash;
    var p := Home(k, |hash|);
    assert SlotOk(hash, chains, p);
    SearchEnds(hash, chains, k);
  }

  lemma {:induction false} GetHash(items: seq<Value>, hash: seq<Node>, chains: seq<seq<nat>>,
                                   entries: seq<Entry>, k: Key)
    requires Built(items, hash, chains, entries) && !InArray(|items|, k) && Absent(hash, k)
    ensures Get(entries, k) == Nil
  {
    forall i | 0 <= i < |entries| ensures entries[i].key != k {
      assert InArray(|items|, entries[i].key) || entries[i].key in HashKeys(entries, |items|);
    }
    GetNone(entries, k);
  }

  // ------------------------------------------------------- going through it

  /** The keys of the array part from place `from` on. */
  function ArrayKeys(items: seq<Value>, from: nat): seq<Key>
    requires from <= |items|
    decreases |items| - from
  {
    if from == |items| then []
    else (if items[from] != Nil then [IntKey(from + 1)] else []) + ArrayKeys(items, from + 1)
  }

  /** The keys of the slots from `from` on. */
  function SlotKeys(hash: seq<Node>, from: nat): seq<Key>
    requires from <= |hash|
    decreases |hash| - from
  {
    if from == |hash| then [] else [hash[from].key] + SlotKeys(hash, from + 1)
  }

  /** The order in which `lnextkey` goes through a table. */
  function Order(items: seq<Value>, hash: seq<Node>): seq<Key> { ArrayKeys(items, 0) + SlotKeys(hash, 0) }

  /** The next key comes from an unset first slot. */
  predicate StartsUnset(items: seq<Value>, from: nat, hash: seq<Node>)
    requires from <= |items|
  {
    ArrayKeys(items, from) == [] && hash != [] && !Filled(hash[0])
  }

  /** The key after slot `n` comes from an unset slot. */
  predicate FollowsUnset(hash: seq<Node>, n: nat) { n + 1 < |hash| && !Filled(hash[n + 1]) }

  /** Asking for the key after `key` uses a slot that nobody has set: the first one, or the home
      of the key, or the one behind the key. */
  ghost predicate GoesAstray(items: seq<Value>, hash: seq<Node>, chains: seq<seq<nat>>, key: Option<Key>) {
    match key
    case None => StartsUnset(items, 0, hash)
    case Some(wide) =>
      var k := CutKey(wide);
      if wide.TableKey? then false
      else if InArray(|items|, k) then StartsUnset(items, k.n, hash)
      else
        hash != []
        && (!Filled(hash[Home(k, |hash|)]) || exists n: nat :: Finds(hash, chains, k, n) && FollowsUnset(hash, n))
  }

  function First(ks: seq<Key>): Option<Key> { if ks == [] then None else Some(ks[0]) }

  lemma {:induction false} SlotKeysLength(hash: seq<Node>, from: nat)
    requires from <= |hash|
    ensures |SlotKeys(hash, from)| == |hash| - from
    decreases |hash| - from
  {
    if from < |hash| { SlotKeysLength(hash, from + 1); }
  }

  lemma {:induction false} SlotKeysAre(hash: seq<Node>, from: nat, s: nat)
    requires from <= s < |hash|
    ensures |SlotKeys(hash, from)| == |hash| - from && SlotKeys(hash, from)[s - from] == hash[s].key
    ensures SlotKeys(hash, from)[s - from + 1..] == SlotKeys(hash, s + 1)
    decreases |hash| - from
  {
    SlotKeysLength(hash, from);
    if from < s {
      SlotKeysAre(hash, from + 1, s);
      assert SlotKeys(hash, from)[1..] == SlotKeys(hash, from + 1);
      assert SlotKeys(hash, from)[s - from + 1..] == SlotKeys(hash, from)[1..][s - from..];
    }
  }

  lemma {:induction false} ArrayKeysAre(items: seq<Value>, from: nat, m: nat)
    requires from <= |items| && m < |ArrayKeys(items, from)|
    ensures var k := ArrayKeys(items, from)[m];
            && k.IntKey? && from < k.n <= |items| && items[k.n - 1] != Nil
            && ArrayKeys(items, from)[m + 1..] == ArrayKeys(items, k.n)
    decreases |items| - from
  {
    var ks, rest := ArrayKeys(items, from), ArrayKeys(items, from + 1);
    if items[from] == Nil {
      ArrayKeysAre(items, from + 1, m);
    } else if m > 0 {
      ArrayKeysAre(items, from + 1, m - 1);
      assert ks[1..] == rest;
      assert ks[m] == ks[1..][m - 1] && ks[m + 1..] == ks[1..][m..];
    }
  }

  lemma {:induction false} ArrayKeyThere(items: seq<Value>, from: nat, i: nat)
    requires from <= i < |items| && items[i] != Nil
    ensures IntKey(i + 1) in ArrayKeys(items, from)
    decreases i - from
  {
    if from < i { ArrayKeyThere(items, from + 1, i); }
  }

  lemma {:induction false} AfterItem(items: seq<Value>, hash: seq<Node>, chains: seq<seq<nat>>,
                                     entries: seq<Entry>, k: Key)
    requires Built(items, hash, chains, entries) && InArray(|items|, k)
    ensures var ks := Order(items, hash);
            forall m :: 0 <= m < |ks| && ks[m] == k ==> ks[m + 1..] == ArrayKeys(items, k.n) + SlotKeys(hash, 0)
  {
    var ks, n := Order(items, hash), |ArrayKeys(items, 0)|;
    SlotKeysLength(hash, 0);
    forall m | 0 <= m < |ks| && ks[m] == k ensures ks[m + 1..] == ArrayKeys(items, k.n) + SlotKeys(hash, 0) {
      if m < n {
        ArrayKeysAre(items, 0, m);
        assert ks[m + 1..] == ArrayKeys(items, 0)[m + 1..] + SlotKeys(hash, 0);
      } else {
        SlotKeysAre(hash, 0, m - n);
        SlotNotArray(items, hash, chains, entries, m - n);
      }
    }
  }

  lemma {:induction false} SlotNotArray(items: seq<Value>, hash: seq<Node>, chains: seq<seq<nat>>,
                                        entries: seq<Entry>, s: nat)
    requires Built(items, hash, chains, entries) && s < |hash|
    ensures !InArray(|items|, hash[s].key)
  {
    assert hash[s].key in KeysIn(hash);
  }

  lemma {:induction false} AfterSlot(items: seq<Value>, hash: seq<Node>, chains: seq<seq<nat>>, entries: seq<Entry>,
                                     k: Key, s: int)
    requires Built(items, hash, chains, entries) && !InArray(|items|, k)
    requires -1 <= s < |hash| && (s >= 0 ==> hash[s].key == k) && (s < 0 ==> Absent(hash, k))
    ensures var ks := Order(items, hash);
            forall m :: 0 <= m < |ks| && ks[m] == k ==> s >= 0 && ks[m + 1..] == SlotKeys(hash, s + 1)
    ensures s >= 0 ==> First(SlotKeys(hash, s + 1)) == if s + 1 == |hash| then None else Some(hash[s + 1].key)
  {
    hide Linked, ItemsOk, HashKeys, Get, KeyHash, Home;
    var ks, n := Order(items, hash), |ArrayKeys(items, 0)|;
    SlotKeysLength(hash, 0);
    if s >= 0 && s + 1 < |hash| { SlotKeysAre(hash, s + 1, s + 1); }
    forall m | 0 <= m < |ks| && ks[m] == k ensures s >= 0 && ks[m + 1..] == SlotKeys(hash, s + 1) {
      if m < n {
        ArrayKeysAre(items, 0, m);
      } else {
        SlotKeysAre(hash, 0, m - n);
        assert Filled(hash[m - n]);
        assert s == m - n;
        assert ks[m + 1..] == SlotKeys(hash, 0)[m - n + 1..];
      }
    }
  }

  lemma {:induction false} BuiltLinked(items: seq<Value>, hash: seq<Node>, chains: seq<seq<nat>>,
                                       entries: seq<Entry>)
    requires Built(items, hash, chains, entries)
    ensures Linked(hash, chains)
  {
  }

  /** The next key is that of the slot behind the first one with the key; there is none after
      the last slot, or when the key is not there. */
  ghost predicate IsBehind(hash: seq<Node>, chains: seq<seq<nat>>, k: Key, next: Option<Key>) {
    if Absent(hash, k) then next == None
    else exists n: nat :: Finds(hash, chains, k, n) && next == First(SlotKeys(hash, n + 1))
  }

  /** A table that holds its entries has no slot that nobody has set. */
  lemma {:induction false} NoStray(items: seq<Value>, hash: seq<Node>, chains: seq<seq<nat>>, entries: seq<Entry>,
                                   key: Option<Key>)
    requires Built(items, hash, chains, entries)
    ensures !GoesAstray(items, hash, chains, key)
  {
    hide CutKey, Home, KeyHash, Finds;
  }

  /** The key behind the one that was found is the next one in the order. */
  lemma {:induction false} BehindFound(items: seq<Value>, hash: seq<Node>, chains: seq<seq<nat>>,
                                       entries: seq<Entry>, k: Key)
    requires Built(items, hash, chains, entries) && !InArray(|items|, k)
    ensures Get(entries, k) == Nil ==> Absent(hash, k)
    ensures var ks := Order(items, hash);
            forall m :: 0 <= m < |ks| && ks[m] == k ==>
              !Absent(hash, k) && forall n: nat :: Finds(hash, chains, k, n) ==> ks[m + 1..] == SlotKeys(hash, n + 1)
  {
    hide Home, KeyHash;
    if Absent(hash, k) {
      AfterSlot(items, hash, chains, entries, k, -1);
    } else {
      forall n: nat | Finds(hash, chains, k, n)
        ensures var ks := Order(items, hash);
                forall m :: 0 <= m < |ks| && ks[m] == k ==> ks[m + 1..] == SlotKeys(hash, n + 1)
      {
        AfterSlot(items, hash, chains, entries, k, n);
      }
    }
  }

  lemma {:induction false} OrderAt(items: seq<Value>, hash: seq<Node>, m: nat)
    requires m < |Order(items, hash)|
    ensures var n, k := |ArrayKeys(items, 0)|, Order(items, hash)[m];
            if m < n then k == ArrayKeys(items, 0)[m] && InArray(|items|, k) && items[k.n - 1] != Nil
            else m - n < |hash| && k == hash[m - n].key
  {
    SlotKeysLength(hash, 0);
    if m < |ArrayKeys(items, 0)| {
      ArrayKeysAre(items, 0, m);
    } else {
      SlotKeysAre(hash, 0, m - |ArrayKeys(items, 0)|);
    }
  }

  /** Going through a table visits each key of the source, and only those. */
  lemma {:induction false} VisitsAll(items: seq<Value>, hash: seq<Node>, chains: seq<seq<nat>>,
                                     entries: seq<Entry>, k: Key)
    requires Built(items, hash, chains, entries) && OneEach(entries)
    ensures k in Order(items, hash) <==> exists i :: 0 <= i < |entries| && entries[i].key == k
  {
    if k in Order(items, hash) {
      var m :| 0 <= m < |Order(items, hash)| && Order(items, hash)[m] == k;
      OrderAt(items, hash, m);
      if m < |ArrayKeys(items, 0)| {
        if forall i :: 0 <= i < |entries| ==> entries[i].key != k { GetNone(entries, k); }
      } else {
        assert k in KeysIn(hash);
      }
    } else if i :| 0 <= i < |entries| && entries[i].key == k {
      GetAt(entries, i);
      if InArray(|items|, k) {
        ArrayKeyThere(items, 0, k.n - 1);
      } else {
        assert k in HashKeys(entries, |items|);
        var s: nat :| s < |hash| && hash[s].key == k;
        SlotKeysAre(hash, 0, s);
      }
    }
  }

  /** No key is visited twice. */
  lemma {:induction false} VisitsOnce(items: seq<Value>, hash: seq<Node>, chains: seq<seq<nat>>, entries: seq<Entry>,
                                      l: nat, m: nat)
    requires Built(items, hash, chains, entries) && l < m < |Order(items, hash)|
    ensures Order(items, hash)[l] != Order(items, hash)[m]
  {
    var n := |ArrayKeys(items, 0)|;
    OrderAt(items, hash, l);
    OrderAt(items, hash, m);
    if m < n {
      ArrayKeysAre(items, 0, l);
      var k := ArrayKeys(items, 0)[l];
      assert ArrayKeys(items, 0)[m] == ArrayKeys(items, 0)[l + 1..][m - l - 1];
      ArrayKeysAre(items, k.n, m - l - 1);
    } else {
      SlotNotArray(items, hash, chains, entries, m - n);
      assert Filled(hash[m - n]) && (l >= n ==> Filled(hash[l - n]));
    }
  }

  /** A key that does not fit an `int` is read as if it were cut to one: the answer is right
      exactly when the source has nothing under the cut key either. */
  lemma {:induction false} ReadsRightExactly(entries: seq<Entry>, k: Key)
    requires OneEach(entries) && (forall i :: 0 <= i < |entries| ==> CutKey(entries[i].key) == entries[i].key)
    ensures Get(entries, CutKey(k)) == Get(entries, k)
            <==> CutKey(k) == k || forall i :: 0 <= i < |entries| ==> entries[i].key != CutKey(k)
  {
    if CutKey(k) != k {
      GetNone(entries, k);
      if i :| 0 <= i < |entries| && entries[i].key == CutKey(k) {
        GetAt(entries, i);
      } else {
        GetNone(entries, CutKey(k));
      }
    }
  }

  ghost predicate AllCut(entries: seq<Entry>) {
    forall i :: 0 <= i < |entries| ==> CutKey(entries[i].key) == entries[i].key
  }

  lemma {:induction false} CutTwice(source: seq<Entry>)
    ensures AllCut(CutAll(source))
  {
  }

  /** The keys of a table are as they were cut, and none is a table. */
  lemma {:induction false} OrderIsCut(items: seq<Value>, hash: seq<Node>, chains: seq<seq<nat>>,
                                      entries: seq<Entry>, m: nat)
    requires Built(items, hash, chains, entries) && OneEach(entries) && AllCut(entries) && m < |Order(items, hash)|
    ensures CutKey(Order(items, hash)[m]) == Order(items, hash)[m] && !Order(items, hash)[m].TableKey?
  {
    VisitsAll(items, hash, chains, entries, Order(items, hash)[m]);
  }

  /** All slots can be filled although two keys are cut to one: the later one is in a slot of
      its own, since their home holds another key. */
  lemma {:induction false} FilledNotApart()
    ensures var source := [Entry(IntKey(3), Val(0)), Entry(IntKey(6), Val(1)), Entry(IntKey(0x1_0000_0006), Val(2))];
            && OneEach(source) && CountHash(source, 0) == 3
            && NoneSkipped(source, 0, 3) && !CutsApart(source, 0)
  {
    var source := [Entry(IntKey(3), Val(0)), Entry(IntKey(6), Val(1)), Entry(IntKey(0x1_0000_0006), Val(2))];
    assert source[..2][..1] == source[..1] && source[..1][..0] == [];
    assert CountHash(source[..1], 0) == 1;
    assert CountHash(source[..2], 0) == 2;
    var cut := CutAll(source);
    assert cut[1].key == cut[2].key == IntKey(6) && cut[0].key == IntKey(3);
    assert Home(IntKey(3), 3) == 0 && Home(IntKey(6), 3) == 0;
    assert FirstOf(cut, 0, 3, 0, 1) == 0;
    assert FirstOf(cut, 0, 3, 0, 2) == 0;
    assert FirstOf(cut, 0, 3, 0, 3) == 0;
  }
}
