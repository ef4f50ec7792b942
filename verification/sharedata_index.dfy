/** The hash part of a shared table in lua-sharedata.c: keys are linked from the slot
    that their hash gives, and a table has as many slots as keys outside the array part. */
module ShareIndex {
  import opened Octets

  /** The keys that the count lets pass; a table among them is told apart by its identity. */
  datatype Key = IntKey(n: int) | StrKey(s: Bytes) | TableKey(id: nat)

  /** Values stay as they are; `Nil` marks an empty place. */
  datatype Value = Nil | Val(v: int)

  datatype Entry = Entry(key: Key, value: Value)

  datatype Node = Node(value: Value, key: Key, next: int, keyhash: nat, nocolliding: bool)

  const EMPTY := Node(Nil, IntKey(0), -1, 0, false)

  /** What becomes of a key: an integer is cut to an `int`, and a table to the empty string. */
  function CutKey(k: Key): Key {
    match k
    case IntKey(n) =>
      var u := n % 0x1_0000_0000;
      IntKey(if u < 0x8000_0000 then u else u - 0x1_0000_0000)
    case StrKey(_) => k
    case TableKey(_) => StrKey([])
  }

  /** calchash: `h` so far, and the bytes up to `l1` to go, by steps. */
  function HashBytes(h: bv32, s: Bytes, l1: nat, step: nat): bv32
    requires l1 <= |s| && step > 0
    decreases l1
  {
    if l1 < step then h else HashBytes(h ^ ((h << 5) + (h >> 2) + s[l1 - 1] as bv32), s, l1 - step, step)
  }

  function KeyHash(k: Key): nat {
    match k
    case IntKey(n) => n % 0x1_0000_0000
    case StrKey(s) => HashBytes((|s| % 0x1_0000_0000) as bv32, s, |s|, |s| / 32 + 1) as nat
    case TableKey(_) => 0  // not hashed before it is cut
  }

  predicate InArray(size: nat, k: Key) { k.IntKey? && 0 < k.n <= size }

  function Home(k: Key, size: nat): (h: nat)
    requires size > 0
    ensures h < size
  {
    KeyHash(k) % size
  }

  predicate Filled(n: Node) { n.value != Nil }

  // ----------------------------------------------------------------- chains

  /** A slot knows its hash, is in the chain of its home, and alone there when marked so. */
  ghost predicate SlotOk(hash: seq<Node>, chains: seq<seq<nat>>, i: nat)
    requires i < |hash| == |chains|
  {
    Filled(hash[i]) ==>
      var chain := chains[Home(hash[i].key, |hash|)];
      && hash[i].keyhash == KeyHash(hash[i].key) && i in chain && (hash[i].nocolliding ==> chain == [i])
  }

  /** Where a chain goes on after its place `j`. */
  function NextIn(chain: seq<nat>, j: nat): int { if j + 1 < |chain| then chain[j + 1] else -1 }

  /** The chain from slot `p`: all its keys have their home there. */
  ghost predicate ChainOk(hash: seq<Node>, chain: seq<nat>, p: nat) {
    && (chain != [] ==> chain[0] == p)
    && (forall j :: 0 < j < |chain| ==> chain[j] != p)
    && (forall j :: 0 <= j < |chain| ==>
          && chain[j] < |hash| && Filled(hash[chain[j]]) && Home(hash[chain[j]].key, |hash|) == p
          && hash[chain[j]].next == NextIn(chain, j))
  }

  ghost predicate Distinct(hash: seq<Node>) {
    forall i, j :: 0 <= i < j < |hash| && Filled(hash[i]) && Filled(hash[j]) ==> hash[i].key != hash[j].key
  }

  ghost predicate Linked(hash: seq<Node>, chains: seq<seq<nat>>) {
    && |chains| == |hash|
    && (forall i :: 0 <= i < |hash| ==> SlotOk(hash, chains, i))
    && (forall p :: 0 <= p < |hash| ==> ChainOk(hash, chains[p], p))
  }

  ghost predicate Absent(hash: seq<Node>, k: Key) {
    forall i :: 0 <= i < |hash| && Filled(hash[i]) ==> hash[i].key != k
  }

  function AlonePlaced(hash: seq<Node>, p: nat, e: Entry): seq<Node>
    requires p < |hash|
  {
    hash[p := Node(e.value, e.key, -1, KeyHash(e.key), true)]
  }

  /** The first key at its home. */
  lemma {:induction false} PlaceAlone(hash: seq<Node>, chains: seq<seq<nat>>, p: nat, e: Entry)
    requires Linked(hash, chains) && p < |hash| && !Filled(hash[p]) && Home(e.key, |hash|) == p
    requires e.value != Nil
    ensures Linked(AlonePlaced(hash, p, e), chains[p := [p]])
  {
    hide Home, KeyHash;
    var h2, c2 := AlonePlaced(hash, p, e), chains[p := [p]];
    assert ChainOk(hash, chains[p], p);
    assert chains[p] == [];
    forall i | 0 <= i < |h2| ensures SlotOk(h2, c2, i) { assert SlotOk(hash, chains, i); }
    forall q | 0 <= q < |h2| ensures ChainOk(h2, c2[q], q) {
      assert ChainOk(hash, chains[q], q);
      if q != p { ChainStays(hash, h2, chains[q], q, p, p); }
    }
  }

  /** Other slots may change. */
  lemma {:induction false} ChainStays(hash: seq<Node>, h2: seq<Node>, chain: seq<nat>, q: nat, p: nat, n: nat)
    requires ChainOk(hash, chain, q) && |h2| == |hash|
    requires forall i :: 0 <= i < |hash| && i != p && i != n ==> h2[i] == hash[i]
    requires p < |hash| && n < |hash| && (Filled(hash[p]) ==> Home(hash[p].key, |hash|) != q)
    requires Filled(hash[n]) ==> Home(hash[n].key, |hash|) != q
    ensures ChainOk(h2, chain, q)
  {
    hide Home, KeyHash;
    forall j | 0 <= j < |chain| ensures chain[j] != p && chain[j] != n && h2[chain[j]] == hash[chain[j]] {}
  }

  function ChainPlaced(hash: seq<Node>, p: nat, n: nat, e: Entry): seq<Node>
    requires p < |hash| && n < |hash|
  {
    hash[p := hash[p].(next := n, nocolliding := false)]
        [n := Node(e.value, e.key, hash[p].next, KeyHash(e.key), false)]
  }

  /** One more key, linked after the first of its chain. */
  lemma {:induction false} PlaceLinked(hash: seq<Node>, chains: seq<seq<nat>>, p: nat, n: nat, e: Entry)
    requires Linked(hash, chains) && p < |hash| && n < |hash| && !Filled(hash[n]) && Home(e.key, |hash|) == p
    requires e.value != Nil && chains[p] != []
    ensures Linked(ChainPlaced(hash, p, n, e), chains[p := [p, n] + chains[p][1..]])
  {
    hide Home, KeyHash;
    assert ChainOk(hash, chains[p], p);
    var h2, c2 := ChainPlaced(hash, p, n, e), chains[p := [p, n] + chains[p][1..]];
    forall i | 0 <= i < |h2| ensures SlotOk(h2, c2, i) {
      assert SlotOk(hash, chains, i);
      if i == n {
        assert c2[p][1] == n;
      } else if i in chains[p] {
        assert i == p || i in chains[p][1..];
      }
    }
    forall q | 0 <= q < |h2| ensures ChainOk(h2, c2[q], q) {
      assert ChainOk(hash, chains[q], q);
      if q == p {
        ChainGrows(hash, chains[p], p, n, e);
      } else {
        assert chains[p][0] == p;
        ChainStays(hash, h2, chains[q], q, p, n);
      }
    }
  }

  lemma {:induction false} ChainGrows(hash: seq<Node>, chain: seq<nat>, p: nat, n: nat, e: Entry)
    requires p < |hash| && n < |hash| && ChainOk(hash, chain, p) && chain != []
    requires !Filled(hash[n]) && Home(e.key, |hash|) == p && e.value != Nil
    ensures ChainOk(ChainPlaced(hash, p, n, e), [p, n] + chain[1..], p)
  {
    hide Home, KeyHash;
    var h2, c2 := ChainPlaced(hash, p, n, e), [p, n] + chain[1..];
    assert chain[0] == p && n != p;
    forall j | 0 <= j < |c2|
      ensures c2[j] < |h2| && Filled(h2[c2[j]]) && Home(h2[c2[j]].key, |h2|) == p
      ensures h2[c2[j]].next == NextIn(c2, j) && (j > 0 ==> c2[j] != p)
    {
      GrownAt(hash, chain, p, n, e, j);
    }
    hide ChainPlaced, NextIn, Filled;
  }

  lemma {:induction false} GrownAt(hash: seq<Node>, chain: seq<nat>, p: nat, n: nat, e: Entry, j: nat)
    requires p < |hash| && n < |hash| && ChainOk(hash, chain, p) && chain != [] && j <= |chain|
    requires !Filled(hash[n]) && Home(e.key, |hash|) == p && e.value != Nil
    ensures var h2, c2 := ChainPlaced(hash, p, n, e), [p, n] + chain[1..];
            && c2[j] < |h2| && Filled(h2[c2[j]]) && Home(h2[c2[j]].key, |h2|) == p
            && h2[c2[j]].next == NextIn(c2, j) && (j > 0 ==> c2[j] != p)
  {
    hide Home, KeyHash;
    var h2, c2 := ChainPlaced(hash, p, n, e), [p, n] + chain[1..];
    assert chain[0] == p && n != p;
    if j == 0 {
      assert h2[p] == hash[p].(next := n, nocolliding := false) && NextIn(c2, 0) == n;
    } else if j == 1 {
      assert h2[n].next == hash[chain[0]].next == NextIn(chain, 0) == NextIn(c2, 1);
    } else {
      assert chain[j - 1] != p && hash[chain[j - 1]].next == NextIn(chain, j - 1);
      assert c2[j] == chain[j - 1] && NextIn(c2, j) == NextIn(chain, j - 1);
      assert h2[c2[j]] == hash[chain[j - 1]];
    }
    hide ChainOk, ChainPlaced, NextIn;
  }

  // --------------------------------------------------------------- counting

  ghost function Slots(n: nat): (r: set<nat>)
    ensures |r| == n && forall i: nat :: i in r <==> i < n
  {
    if n == 0 then {} else Slots(n - 1) + {n - 1}
  }

  /** The entry that each slot was filled with, or -1. */
  ghost predicate Owned(hash: seq<Node>, who: seq<int>, entries: seq<Entry>) {
    && |who| == |hash| && Injective(who)
    && forall s :: 0 <= s < |who| ==>
         if who[s] < 0 then !Filled(hash[s])
         else who[s] < |entries| && hash[s].key == entries[who[s]].key && hash[s].value == entries[who[s]].value
              && Filled(hash[s])
  }

  ghost predicate Injective(who: seq<int>) {
    forall s, t :: 0 <= s < t < |who| && who[s] >= 0 && who[t] >= 0 ==> who[s] != who[t]
  }

  ghost function Owners(who: seq<int>): set<int> { set s | 0 <= s < |who| && who[s] >= 0 :: who[s] }

  ghost function Taken(who: seq<int>): set<nat> { set s: nat | s < |who| && who[s] >= 0 }

  lemma {:induction false} OneMoreSlot(who: seq<int>)
    requires who != []
    ensures var m := |who| - 1;
            && Taken(who) == Taken(who[..m]) + (if who[m] >= 0 then {m} else {})
            && Owners(who) == Owners(who[..m]) + (if who[m] >= 0 then {who[m]} else {})
  {
  }

  lemma {:induction false} OwnersSize(who: seq<int>)
    requires Injective(who)
    ensures |Owners(who)| == |Taken(who)|
  {
    if who != [] {
      var m := |who| - 1;
      OwnersSize(who[..m]);
      OneMoreSlot(who);
      assert m !in Taken(who[..m]);
      assert who[m] >= 0 ==> who[m] !in Owners(who[..m]);
      hide Taken, Owners, Injective;
    }
  }

  /** While an entry has no slot there is an empty one; when none is, all have one. */
  lemma {:induction false} Room(who: seq<int>, all: set<int>)
    requires Injective(who) && Owners(who) <= all && |all| == |who|
    ensures Owners(who) != all <==> exists s: nat :: s < |who| && who[s] < 0
  {
    OwnersSize(who);
    hide Owners, Injective;
    var taken, slots := Taken(who), Slots(|who|);
    assert taken <= slots;
    Smaller(Owners(who), all);
    Smaller(taken, slots);
    if taken == slots {
      forall s: nat | s < |who| ensures who[s] >= 0 { assert s in taken; }
    } else {
      var s :| s in slots && s !in taken;
      assert who[s] < 0;
    }
  }

  lemma {:induction false} Smaller<T>(a: set<T>, b: set<T>)
    requires a <= b
    ensures |a| <= |b| && (|a| == |b| ==> a == b)
  {
    assert b == a + (b - a);
  }

  // ----------------------------------------------------------------- source

  ghost function KeysIn(hash: seq<Node>): set<Key> { set i: nat | i < |hash| && Filled(hash[i]) :: hash[i].key }

  /** The keys of a source table that go into the hash part. */
  ghost function HashKeys(entries: seq<Entry>, size: nat): set<Key> {
    set i: nat | i < |entries| && !InArray(size, entries[i].key) :: entries[i].key
  }

  predicate OneEach(entries: seq<Entry>) {
    && (forall i, j :: 0 <= i < j < |entries| ==> entries[i].key != entries[j].key)
    && (forall i :: 0 <= i < |entries| ==> entries[i].value != Nil)
  }

  /** The entries as the passes see them. */
  function CutAll(source: seq<Entry>): (r: seq<Entry>)
    ensures |r| == |source|
  {
    seq(|source|, i requires 0 <= i < |source| => Entry(CutKey(source[i].key), source[i].value))
  }

  /** The places of the entries that countsize counts. */
  ghost function Counted(source: seq<Entry>, size: nat): set<int> {
    set i | 0 <= i < |source| && !InArray(size, source[i].key)
  }

  /** countsize */
  function CountHash(source: seq<Entry>, size: nat): nat {
    if source == [] then 0
    else
      var m := |source| - 1;
      CountHash(source[..m], size) + if InArray(size, source[m].key) then 0 else 1
  }

  lemma {:induction false} CountSize(source: seq<Entry>, size: nat)
    ensures |Counted(source, size)| == CountHash(source, size)
  {
    if source == [] {
      assert Counted(source, size) == {};
    } else {
      var m := |source| - 1;
      CountSize(source[..m], size);
      if InArray(size, source[m].key) {
        assert Counted(source, size) == Counted(source[..m], size);
      } else {
        assert Counted(source, size) == Counted(source[..m], size) + {m};
      }
    }
  }

  /** What the source table has under a key. */
  function Get(entries: seq<Entry>, k: Key): Value {
    if entries == [] then Nil
    else
      var m := |entries| - 1;
      if entries[m].key == k then entries[m].value else Get(entries[..m], k)
  }

  lemma {:induction false} GetAt(entries: seq<Entry>, i: nat)
    requires OneEach(entries) && i < |entries|
    ensures Get(entries, entries[i].key) == entries[i].value
  {
    var m := |entries| - 1;
    if i < m { GetAt(entries[..m], i); }
  }

  lemma {:induction false} GetNone(entries: seq<Entry>, k: Key)
    requires forall i :: 0 <= i < |entries| ==> entries[i].key != k
    ensures Get(entries, k) == Nil
  {
    if entries != [] { GetNone(entries[..|entries| - 1], k); }
  }
}
