/** Shared tables of lua-sharedata.c: building one, reading a key, and going through
    all keys. */
module ShareTable {
  import opened Basics
  import opened ShareIndex
  import opened ShareOrder
  import opened SharePasses

  class Conf {
    const items: array<Value>
    const hash: array<Node>
    ghost var chains: seq<seq<nat>>
    ghost var who: seq<int>

    ghost predicate Holds(entries: seq<Entry>)
      reads this, items, hash
    {
      Built(items[..], hash[..], chains, entries)
    }

    /** convtable, for any source table: the array part, and as many slots as there are other
        keys before they are cut.  The table holds the entries when cutting keeps the keys apart. */
    constructor (source: seq<Entry>, size: nat)
      requires OneEach(source) && size <= INT_MAX
      ensures items.Length == size && hash.Length == CountHash(source, size) && fresh(items) && fresh(hash)
      ensures Linked(hash[..], chains) && ItemsOk(items[..], CutAll(source))
      ensures hash.Length > 0 ==> (AllFilled(hash[..]) <==> NoneSkipped(source, size, hash.Length))
      ensures AllFilled(hash[..]) && Distinct(hash[..]) <==> CutsApart(source, size)
      ensures CutsApart(source, size) ==> Holds(CutAll(source)) && OneEach(CutAll(source)) && AllCut(CutAll(source))
    {
      items := new Value[size](_ => Nil);
      hash := new Node[CountHash(source, size)](_ => EMPTY);
      chains := seq(CountHash(source, size), _ => []);
      who := seq(CountHash(source, size), _ => -1);
      new;
      CountSize(source, size);
      CutTwice(source);
      if CutsApart(source, size) { CutOneEach(source, size); }
      if hash.Length > 0 {
        ghost var entries := CutAll(source);
        AllEmpty(hash[..], chains, who, entries, size);
        hide OneEach, Counted, NoneSkipped, CutsApart, AllFilled, Distinct, Linked, ItemsOk, Built, AllCut;
        hide FirstPass, SecondPass;
        FillNoColliding(source);
        FillColliding(source);
        Results(source);
      } else {
        FillArray(source);
        OnlyArray(items[..], source);
        assert hash[..] == [] && chains == [];
      }
    }

    /** What both passes leave. */
    lemma {:induction false} Results(source: seq<Entry>)
      requires OneEach(source) && items.Length <= INT_MAX && |Counted(source, items.Length)| == hash.Length
      requires SecondPass(hash[..], chains, who, CutAll(source), items.Length, |source|)
      requires ItemsOk(items[..], CutAll(source))
      ensures Linked(hash[..], chains)
      ensures hash.Length > 0 && (AllFilled(hash[..]) <==> NoneSkipped(source, items.Length, hash.Length))
      ensures AllFilled(hash[..]) && Distinct(hash[..]) <==> CutsApart(source, items.Length)
      ensures CutsApart(source, items.Length) ==> Holds(CutAll(source))
    {
      LinkedIs(hash[..], chains, who, CutAll(source), items.Length);
      AllFilledExactly(hash[..], chains, who, source, items.Length);
      SoundExactly(hash[..], chains, who, source, items.Length);
      assert hash.Length > 0 by { assert hash[..] != []; }
      hide OneEach, Counted, NoneSkipped, CutsApart, AllFilled, Distinct, SecondPass, Linked, ItemsOk, Built;
      if CutsApart(source, items.Length) { ApartIsBuilt(items[..], hash[..], chains, who, source); }
    }

    /** The array part, when there is no other key. */
    method FillArray(source: seq<Entry>)
      modifies items
      ensures ItemsOk(items[..], source)
    {
      var i := 0;
      while i < items.Length
        invariant 0 <= i <= items.Length && forall k :: 0 <= k < i ==> items[k] == Get(source, IntKey(k + 1))
      {
        items[i] := Get(source, IntKey(i + 1));
        i := i + 1;
      }
    }

    /** fillnocolliding: the array part, and each slot gets the first key of which it is the home. */
    method FillNoColliding(source: seq<Entry>)
      requires OneEach(source) && FirstPass(hash[..], chains, who, CutAll(source), items.Length, 0)
      requires forall k :: 0 <= k < items.Length ==> items[k] == Nil
      modifies this, items, hash
      ensures SecondPass(hash[..], chains, who, CutAll(source), items.Length, 0)
      ensures ItemsOk(items[..], CutAll(source))
    {
      ghost var entries := CutAll(source);
      var i := 0;
      while i < |source|
        invariant 0 <= i <= |source| && FirstPass(hash[..], chains, who, entries, items.Length, i)
        invariant ItemsOk(items[..], entries[..i])
      {
        hide FirstPass, SecondPass, ItemsOk;
        FirstEntry(source, i);
        i := i + 1;
      }
      assert entries[..i] == entries;
      BetweenPasses(hash[..], chains, who, entries, items.Length);
    }

    /** One entry of the first pass. */
    method FirstEntry(source: seq<Entry>, i: nat)
      requires OneEach(source) && i < |source|
      requires FirstPass(hash[..], chains, who, CutAll(source), items.Length, i)
      requires ItemsOk(items[..], CutAll(source)[..i])
      modifies this, items, hash
      ensures FirstPass(hash[..], chains, who, CutAll(source), items.Length, i + 1)
      ensures ItemsOk(items[..], CutAll(source)[..i + 1])
    {
      ghost var entries := CutAll(source);
      var key, value := CutKey(source[i].key), source[i].value;
      assert hash.Length > 0 by { assert hash[..] != []; }
      assert value != Nil;
      ItemSet(items[..], entries, i);
      hide FirstPass, Home, KeyHash, Get, OneEach, ItemsOk, CutKey;
      if InArray(items.Length, key) {
        NothingPlaced(hash[..], chains, who, entries, items.Length, i);
        items[key.n - 1] := value;
      } else {
        var p := Home(key, hash.Length);
        if Filled(hash[p]) {
          NothingPlaced(hash[..], chains, who, entries, items.Length, i);
        } else {
          FirstPlaced(hash[..], chains, who, entries, items.Length, i);
          ghost var was := hash[..];
          hash[p] := Node(value, key, -1, KeyHash(key), true);
          chains, who := chains[p := [p]], who[p := i];
          assert hash[..] == AlonePlaced(was, p, entries[i]);
        }
      }
    }

    /** fillcolliding: the other keys go into the empty slots.  There always is one. */
    method FillColliding(source: seq<Entry>)
      requires OneEach(source) && items.Length <= INT_MAX && |Counted(source, items.Length)| == hash.Length > 0
      requires SecondPass(hash[..], chains, who, CutAll(source), items.Length, 0)
      modifies this, hash
      ensures SecondPass(hash[..], chains, who, CutAll(source), items.Length, |source|)
    {
      hide SecondPass, OneEach, Counted, Home, KeyHash, CutKey;
      ghost var entries := CutAll(source);
      var i: nat, empty: nat := 0, 0;
      while i < |source|
        invariant 0 <= i <= |source| && empty <= hash.Length
        invariant SecondPass(hash[..], chains, who, entries, items.Length, i)
        invariant forall s :: 0 <= s < empty ==> Filled(hash[s])
      {
        var key := CutKey(source[i].key);
        if InArray(items.Length, key) || hash[Home(key, hash.Length)].key == key {
          SkipKeeps(hash[..], chains, who, entries, items.Length, i);
        } else {
          empty := LinkEntry(source, i, empty);
        }
        i := i + 1;
      }
    }

    /** The next empty slot.  It is found: this is the assertion of fillcolliding. */
    method EmptyFrom(from: nat) returns (n: nat)
      requires from <= hash.Length && (forall s :: 0 <= s < from ==> Filled(hash[s]))
      requires exists s: nat :: s < hash.Length && !Filled(hash[s])
      ensures from <= n < hash.Length && !Filled(hash[n]) && forall s :: 0 <= s < n ==> Filled(hash[s])
    {
      n := from;
      while n < hash.Length && Filled(hash[n])
        invariant from <= n <= hash.Length && forall s :: 0 <= s < n ==> Filled(hash[s])
      {
        n := n + 1;
      }
      assert n < hash.Length;
    }

    /** One entry goes into the next empty slot, after the first of its chain. */
    method LinkEntry(source: seq<Entry>, i: nat, from: nat) returns (empty: nat)
      requires OneEach(source) && items.Length <= INT_MAX && |Counted(source, items.Length)| == hash.Length > 0
      requires i < |source| && SecondPass(hash[..], chains, who, CutAll(source), items.Length, i) && from <= hash.Length
      requires var key := CutKey(source[i].key);
               !InArray(items.Length, key) && hash[Home(key, hash.Length)].key != key
      requires forall s :: 0 <= s < from ==> Filled(hash[s])
      modifies this, hash
      ensures SecondPass(hash[..], chains, who, CutAll(source), items.Length, i + 1)
      ensures empty <= hash.Length && forall s :: 0 <= s < empty ==> Filled(hash[s])
    {
      var key, value := CutKey(source[i].key), source[i].value;
      ghost var entries := CutAll(source);
      assert value != Nil;
      hide SecondPass, Home, KeyHash, OneEach, Counted, CutKey, PlacedBy;
      HomeTaken(hash[..], chains, who, entries, items.Length, i);
      RoomFor(hash[..], chains, who, source, items.Length, i);
      var n := EmptyFrom(from);
      var p := Home(key, hash.Length);
      LinkKeeps(hash[..], chains, who, entries, items.Length, i, n);
      LinkAt(p, n, Entry(key, value));
      chains, who := chains[p := [p, n] + chains[p][1..]], who[n := i];
      return n + 1;
    }

    method LinkAt(p: nat, n: nat, e: Entry)
      requires p < hash.Length && n < hash.Length && Filled(hash[p]) && !Filled(hash[n]) && e.value != Nil
      modifies hash
      ensures hash[..] == ChainPlaced(old(hash[..]), p, n, e)
      ensures forall s :: 0 <= s < hash.Length && (s == n || old(Filled(hash[s]))) ==> Filled(hash[s])
    {
      hide KeyHash;
      hash[n] := Node(e.value, e.key, hash[p].next, KeyHash(e.key), false);
      hash[p] := hash[p].(next := n, nocolliding := false);
    }

    /** lookup_key, for any table that was built: it uses a slot that nobody has set exactly when
        the home of the key is one. */
    method LookupKey(k: Key) returns (r: Found)
      requires Linked(hash[..], chains)
      ensures r.Unset? <==> hash.Length > 0 && !Filled(hash[Home(k, hash.Length)])
      ensures r.Slot? ==> r.n < hash.Length && Filled(hash[r.n]) && Finds(hash[..], chains, k, r.n)
      ensures r.Missing? ==> Absent(hash[..], k)
    {
      if hash.Length == 0 { return Missing; }
      var keyhash, n := KeyHash(k), Home(k, hash.Length);
      if !Filled(hash[n]) { return Unset; }
      if keyhash != hash[n].keyhash && hash[n].nocolliding {
        AloneElsewhere(hash[..], chains, k);
        return Missing;
      }
      r := Search(k, n);
    }

    /** The loop of lookup_key. */
    method Search(k: Key, home: nat) returns (r: Found)
      requires Linked(hash[..], chains) && hash.Length > 0 && home == Home(k, hash.Length) && Filled(hash[home])
      ensures !r.Unset? && (r.Slot? ==> r.n < hash.Length && Filled(hash[r.n]) && Finds(hash[..], chains, k, r.n))
      ensures r.Missing? ==> Absent(hash[..], k)
    {
      assert |chains| == hash.Length;
      hide Linked, Home, KeyHash, Absent, Unseen, ChainOk;
      var n := home;
      ghost var q: nat, j: nat := InChain(hash[..], chains, n);
      ghost var chain := chains[q];
      SearchStep(hash[..], chain, q, j, k);
      if q != home { SearchEnds(hash[..], chains, k); }
      while true
        invariant n < hash.Length && j < |chain| && chain[j] == n && Filled(hash[n])
        invariant q == home ==> Unseen(hash[..], chain, j, k)
        decreases |chain| - j
      {
        HashKnown(hash[..], chains, n);
        SearchStep(hash[..], chain, q, j, k);
        if KeyHash(k) == hash[n].keyhash && hash[n].key == k {
          assert LiesAt(chain, j, n);
          return Slot(n);
        }
        if hash[n].next < 0 {
          SearchEnds(hash[..], chains, k);
          return Missing;
        }
        n, j := hash[n].next, j + 1;
        SearchStep(hash[..], chain, q, j, k);
      }
    }

    /** lindexconf */
    method IndexConf(key: Key, ghost entries: seq<Entry>) returns (r: Read)
      requires Linked(hash[..], chains)
      ensures r == RefusedRead <==> key.TableKey?
      ensures r == Undefined <==>
              var k := CutKey(key);
              !key.TableKey? && !InArray(items.Length, k) && hash.Length > 0 && !Filled(hash[Home(k, hash.Length)])
      ensures Holds(entries) && !key.TableKey? ==> r == Got(Get(entries, CutKey(key)))
    {
      hide Home, KeyHash, CutKey;
      if key.TableKey? { return RefusedRead; }
      var k := CutKey(key);
      if InArray(items.Length, k) { return Got(items[k.n - 1]); }
      var found := LookupKey(k);
      match found
      case Slot(n) => return Got(hash[n].value);
      case Unset => return Undefined;
      case Missing =>
        if Holds(entries) { GetHash(items[..], hash[..], chains, entries, k); }
        return Got(Nil);
    }

    /** The first key of the array part from place `from` on, or else of the slots. */
    method FirstFrom(from: nat) returns (r: Next)
      requires from <= items.Length
      ensures r == if StartsUnset(items[..], from, hash[..]) then Stray
                   else After(First(ArrayKeys(items[..], from) + SlotKeys(hash[..], 0)))
    {
      var i := from;
      while i < items.Length
        invariant from <= i <= items.Length && ArrayKeys(items[..], from) == ArrayKeys(items[..], i)
      {
        if items[i] != Nil { return After(Some(IntKey(i + 1))); }
        i := i + 1;
      }
      if hash.Length == 0 { return After(None); }
      return if Filled(hash[0]) then After(Some(hash[0].key)) else Stray;
    }

    /** The key of the slot behind the one that was found. */
    method KeyBehind(k: Key) returns (r: Next)
      requires Linked(hash[..], chains)
      ensures r == Stray
              <==> hash.Length > 0 && (!Filled(hash[Home(k, hash.Length)])
                     || exists n: nat :: Finds(hash[..], chains, k, n) && FollowsUnset(hash[..], n))
      ensures r.After? ==> IsBehind(hash[..], chains, k, r.key)
      ensures r != Refused
    {
      hide Linked, Home, KeyHash, Absent, Finds;
      var found := LookupKey(k);
      match found
      case Unset => return Stray;
      case Missing =>
        forall n: nat | Finds(hash[..], chains, k, n) ensures false { FindsOne(hash[..], chains, k, n, n); }
        return After(None);
      case Slot(m) =>
        forall n: nat | Finds(hash[..], chains, k, n) ensures n == m { FindsOne(hash[..], chains, k, m, n); }
        FindsOne(hash[..], chains, k, m, m);
        if m + 1 == hash.Length { return After(None); }
        return if Filled(hash[m + 1]) then After(Some(hash[m + 1].key)) else Stray;
    }

    /** lnextkey, for any table that was built: the key after one, in the order of the slots, or
        the use of a slot that nobody has set; in the order of the table if it holds its entries. */
    method NextKey(key: Option<Key>, ghost entries: seq<Entry>) returns (r: Next)
      requires Linked(hash[..], chains)
      ensures r == Refused <==> key.Some? && key.value.TableKey?
      ensures r == Stray <==> GoesAstray(items[..], hash[..], chains, key)
      ensures r.After? && key.None? ==> r.key == First(Order(items[..], hash[..]))
      ensures r.After? && key.Some? && InArray(items.Length, CutKey(key.value)) ==>
                r.key == First(ArrayKeys(items[..], CutKey(key.value).n) + SlotKeys(hash[..], 0))
      ensures r.After? && key.Some? && !InArray(items.Length, CutKey(key.value)) ==>
                IsBehind(hash[..], chains, CutKey(key.value), r.key)
      ensures Holds(entries) ==> r != Stray
      ensures Holds(entries) && key.Some? && !key.value.TableKey? && !InArray(items.Length, CutKey(key.value)) ==>
                Get(entries, CutKey(key.value)) == Nil ==> r == After(None)
      ensures Holds(entries) && key.Some? && !key.value.TableKey? ==>
                var ks := Order(items[..], hash[..]);
                forall m :: 0 <= m < |ks| && ks[m] == CutKey(key.value) ==> r == After(First(ks[m + 1..]))
    {
      if key.None? {
        r := FirstFrom(0);
        if Holds(entries) { NoStray(items[..], hash[..], chains, entries, key); }
        return;
      }
      if key.value.TableKey? { return Refused; }
      var k := CutKey(key.value);
      if InArray(items.Length, k) {
        r := FirstFrom(k.n);
        if Holds(entries) {
          NoStray(items[..], hash[..], chains, entries, key);
          AfterItem(items[..], hash[..], chains, entries, k);
        }
      } else {
        r := KeyBehind(k);
        if Holds(entries) {
          NoStray(items[..], hash[..], chains, entries, key);
          BehindFound(items[..], hash[..], chains, entries, k);
        }
      }
    }

    /** Going from key to key until there is no next one gives exactly the order of the table. */
    method Traverse(ghost entries: seq<Entry>) returns (ks: seq<Key>)
      requires Holds(entries) && OneEach(entries) && AllCut(entries)
      ensures ks == Order(items[..], hash[..])
    {
      hide Built, Order, OneEach, AllCut;
      ghost var all := Order(items[..], hash[..]);
      BuiltLinked(items[..], hash[..], chains, entries);
      ks := [];
      var next := NextKey(None, entries);
      while next.After? && next.key.Some?
        invariant |ks| <= |all| && ks == all[..|ks|] && next == After(First(all[|ks|..]))
        decreases |all| - |ks|
      {
        var key := next.key.value;
        OrderIsCut(items[..], hash[..], chains, entries, |ks|);
        ks := ks + [key];
        next := NextKey(Some(key), entries);
      }
    }
  }

  /** A key that is cut into the array part is counted and never placed: its slot stays unset,
      and its value takes the place of the other one's. */
  method UnsetSlot() returns (c: Conf)
    ensures c.items.Length == c.hash.Length == 1 && !Filled(c.hash[0]) && c.items[0] == Val(20)
  {
    ghost var source := [Entry(IntKey(1), Val(10)), Entry(IntKey(0x1_0000_0001), Val(20))];
    assert source[..1] == [source[0]];
    c := new Conf([Entry(IntKey(1), Val(10)), Entry(IntKey(0x1_0000_0001), Val(20))], 1);
    assert CutAll(source)[1].key == IntKey(1);
    assert !NoneSkipped(source, 1, 1);
    assert c.hash[..] == [c.hash[0]];
    assert c.items[..][0] == Get(CutAll(source), IntKey(1));
  }
}
