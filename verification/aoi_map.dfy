/** The object index of the area-of-interest service: a hash table in one array,
    with chains through `next`, displacement of foreign entries, tombstones for
    dropped objects, and a cursor for free slots. */
module AoiMap {
  import opened Arithmetic
  import opened Basics

  type Id = nat

  const INVALID_ID := -1
  const PRE_ALLOC := 16

  /** A slot is free while its id is invalid; an entry without object is a tombstone. */
  datatype Slot<V> = Slot(id: int, obj: Option<V>, next: int)

  /** The main position of an id; see `Arithmetic.MaskIsRemainder`. */
  function Main(id: Id, size: nat): nat
    requires size > 0
  {
    id % size
  }

  /** One chain: it begins at its main position, follows `next`, and holds only ids of that position. */
  ghost predicate ChainOk<V>(slots: seq<Slot<V>>, c: seq<nat>, h: nat) {
    && |slots| > 0
    && (c != [] ==> c[0] == h)
    && (forall i :: 0 <= i < |c| ==> c[i] < |slots| && slots[c[i]].id >= 0 && Main(slots[c[i]].id, |slots|) == h)
    && (forall i {:trigger slots[c[i]].next} ::
          0 <= i < |c| ==> slots[c[i]].next == if i + 1 < |c| then c[i + 1] else -1)
    && (forall i, j :: 0 <= i < j < |c| ==> c[i] != c[j])
  }

  ghost predicate SlotOk<V>(slots: seq<Slot<V>>, chains: seq<seq<nat>>, i: nat)
    requires i < |slots| == |chains|
  {
    if slots[i].id >= 0 then i in chains[Main(slots[i].id, |slots|)] else slots[i] == Slot(INVALID_ID, None, -1)
  }

  ghost predicate Distinct<V>(slots: seq<Slot<V>>) {
    forall i, j :: 0 <= i < j < |slots| && slots[i].id >= 0 && slots[j].id >= 0 ==> slots[i].id != slots[j].id
  }

  /** Every occupied slot is on the chain of its main position, and every slot above
      the cursor is occupied. */
  ghost predicate TableOk<V>(slots: seq<Slot<V>>, chains: seq<seq<nat>>, lastfree: int) {
    && |slots| == |chains| > 0
    && -1 <= lastfree < |slots|
    && (forall h :: 0 <= h < |chains| ==> ChainOk(slots, chains[h], h))
    && (forall i :: 0 <= i < |slots| ==> SlotOk(slots, chains, i))
    && Distinct(slots)
    && (forall i :: lastfree < i < |slots| ==> slots[i].id >= 0)
  }

  predicate Holds<V>(slots: seq<Slot<V>>, id: Id) { exists i :: 0 <= i < |slots| && slots[i].id == id }

  /** The object of an id. */
  ghost function Value<V>(slots: seq<Slot<V>>, id: Id): Option<V> {
    if Holds(slots, id) then
      var i :| 0 <= i < |slots| && slots[i].id == id;
      slots[i].obj
    else None
  }

  lemma {:induction false} ValueAt<V>(slots: seq<Slot<V>>, i: nat)
    requires Distinct(slots) && i < |slots| && slots[i].id >= 0
    ensures Holds(slots, slots[i].id) && Value(slots, slots[i].id) == slots[i].obj
  {
    var k :| 0 <= k < |slots| && slots[k].id == slots[i].id && Value(slots, slots[i].id) == slots[k].obj;
    assert k == i;
  }

  // ------------------------------------------------------ steps of insertion

  /** One slot gets an identifier that was nowhere; the others keep theirs. */
  lemma {:induction false} StaysDistinct<V>(slots: seq<Slot<V>>, t: seq<Slot<V>>, h: nat, id: Id)
    requires Distinct(slots) && !Holds(slots, id) && |t| == |slots| && h < |slots| && t[h].id == id
    requires forall i :: 0 <= i < |slots| && i != h ==> t[i].id == slots[i].id
    ensures Distinct(t)
  {
  }

  /** A free main position. */
  lemma {:induction false} PutFree<V>(slots: seq<Slot<V>>, chains: seq<seq<nat>>, lastfree: int, id: Id, obj: V)
    requires TableOk(slots, chains, lastfree) && !Holds(slots, id)
    requires slots[Main(id, |slots|)].id < 0
    ensures var h := Main(id, |slots|);
            TableOk(slots[h := slots[h].(id := id, obj := Some(obj))], chains[h := [h]], lastfree)
  {
    var h := Main(id, |slots|);
    var t, d := slots[h := slots[h].(id := id, obj := Some(obj))], chains[h := [h]];
    assert SlotOk(slots, chains, h) && ChainOk(slots, chains[h], h);
    forall g | 0 <= g < |d| ensures ChainOk(t, d[g], g) {
      assert ChainOk(slots, chains[g], g);
      if g != h { Apart(slots, chains, lastfree, t, g, h, h); }
    }
    forall i | 0 <= i < |t| ensures SlotOk(t, d, i) {
      assert SlotOk(slots, chains, i);
      if slots[i].id >= 0 { assert ChainOk(slots, chains[Main(slots[i].id, |slots|)], Main(slots[i].id, |slots|)); }
    }
    StaysDistinct(slots, t, h, id);
  }

  /** A chain without its entry `j`. */
  lemma {:induction false} Unlinked<V>(slots: seq<Slot<V>>, t: seq<Slot<V>>, c: seq<nat>, r: nat, j: nat)
    requires ChainOk(slots, c, r) && 0 < j < |c| && |t| == |slots|
    requires t[c[j - 1]] == slots[c[j - 1]].(next := slots[c[j]].next)
    requires forall i :: 0 <= i < |slots| && i != c[j - 1] && i != c[j] ==> t[i] == slots[i]
    ensures ChainOk(t, c[..j] + c[j + 1..], r)
  {
    var c' := c[..j] + c[j + 1..];
    forall i | 0 <= i < |c'|
      ensures c'[i] < |t| && t[c'[i]].id >= 0 && Main(t[c'[i]].id, |t|) == r
      ensures t[c'[i]].next == if i + 1 < |c'| then c'[i + 1] else -1
    {
      UnlinkedAt(slots, t, c, r, j, i);
    }
    DistinctWithout(c, j);
  }

  lemma {:induction false} DistinctWithout(c: seq<nat>, j: nat)
    requires j < |c| && forall i, k :: 0 <= i < k < |c| ==> c[i] != c[k]
    ensures var c' := c[..j] + c[j + 1..]; forall i, k :: 0 <= i < k < |c'| ==> c'[i] != c'[k]
  {
    var c' := c[..j] + c[j + 1..];
    forall i, k | 0 <= i < k < |c'| ensures c'[i] != c'[k] {
      var i', k' := if i < j then i else i + 1, if k < j then k else k + 1;
      assert c'[i] == c[i'] && c'[k] == c[k'];
    }
  }

  lemma {:induction false} UnlinkedAt<V>(slots: seq<Slot<V>>, t: seq<Slot<V>>, c: seq<nat>, r: nat, j: nat, i: nat)
    requires ChainOk(slots, c, r) && 0 < j < |c| && |t| == |slots| && i < |c| - 1
    requires t[c[j - 1]] == slots[c[j - 1]].(next := slots[c[j]].next)
    requires forall i :: 0 <= i < |slots| && i != c[j - 1] && i != c[j] ==> t[i] == slots[i]
    ensures var c' := c[..j] + c[j + 1..];
            && c'[i] < |t| && t[c'[i]].id >= 0 && Main(t[c'[i]].id, |t|) == r
            && t[c'[i]].next == if i + 1 < |c'| then c'[i + 1] else -1
  {
    var c' := c[..j] + c[j + 1..];
    if i < j - 1 {
      assert c'[i] == c[i] && c'[i + 1] == c[i + 1];
      assert c[i] != c[j - 1] && c[i] != c[j];
    } else if i == j - 1 {
      assert c'[i] == c[i];
      assert i + 1 < |c'| ==> c'[i + 1] == c[j + 1];
    } else {
      assert c'[i] == c[i + 1];
      assert i + 1 < |c'| ==> c'[i + 1] == c[i + 2];
      assert c[i + 1] != c[j - 1] && c[i + 1] != c[j];
      assert t[c[i + 1]] == slots[c[i + 1]];
      assert slots[c[i + 1]].next == if i + 1 + 1 < |c| then c[i + 1 + 1] else -1;
    }
  }

  lemma {:induction false} StillOn(c: seq<nat>, j: nat, i: nat)
    requires j < |c| && i in c && i != c[j]
    ensures i in c[..j] + c[j + 1..]
  {
    var k :| 0 <= k < |c| && c[k] == i;
    assert (c[..j] + c[j + 1..])[if k < j then k else k - 1] == i;
  }

  /** A main position that is on the chain of another one: its entry leaves that chain. */
  lemma {:induction false} Displace<V>(slots: seq<Slot<V>>,
                                       chains: seq<seq<nat>>, lastfree: int, id: Id, obj: V, r: nat, j: nat)
    requires TableOk(slots, chains, lastfree) && !Holds(slots, id)
    requires var h := Main(id, |slots|);
             slots[h].id >= 0 && r == Main(slots[h].id, |slots|) != h && 0 < j < |chains[r]| && chains[r][j] == h
    ensures var h := Main(id, |slots|);
            var last := chains[r][j - 1];
            && last < |slots|
            && TableOk(slots[last := slots[last].(next := slots[h].next)][h := Slot(id, Some(obj), -1)],
                       chains[r := chains[r][..j] + chains[r][j + 1..]][h := [h]], lastfree)
  {
    var h := Main(id, |slots|);
    var c := chains[r];
    assert ChainOk(slots, c, r) && ChainOk(slots, chains[h], h);
    var last := c[j - 1];
    var t := slots[last := slots[last].(next := slots[h].next)][h := Slot(id, Some(obj), -1)];
    var d := chains[r := c[..j] + c[j + 1..]][h := [h]];
    Unlinked(slots, t, c, r, j);
    forall g | 0 <= g < |d| ensures ChainOk(t, d[g], g) {
      if g != r && g != h { assert ChainOk(slots, chains[g], g); Apart(slots, chains, lastfree, t, g, last, h); }
    }
    assert chains[h] == [] && t[h].id == id && t[last].id == slots[last].id && last != h;
    forall i | 0 <= i < |t| ensures SlotOk(t, d, i) {
      assert SlotOk(slots, chains, i);
      if i != h { OtherSlot(slots, t, chains, h, r, j, i); }
    }
    StaysDistinct(slots, t, h, id);
  }

  /** A slot other than the displaced one stays on its chain. */
  lemma {:induction false} OtherSlot<V>(slots: seq<Slot<V>>, t: seq<Slot<V>>, chains: seq<seq<nat>>, h: nat, r: nat,
                                        j: nat, i: nat)
    requires |slots| == |t| == |chains| && i < |slots| && h < |slots| && r < |slots| && i != h
    requires j < |chains[r]| && chains[r][j] == h && chains[h] == [] && SlotOk(slots, chains, i)
    requires t[i].id == slots[i].id && (slots[i].id < 0 ==> t[i] == slots[i])
    ensures SlotOk(t, chains[r := chains[r][..j] + chains[r][j + 1..]][h := [h]], i)
  {
    if slots[i].id >= 0 && Main(slots[i].id, |slots|) == r { StillOn(chains[r], j, i); }
  }

  /** A chain is not touched by changes of slots with other main positions. */
  lemma {:induction false} Apart<V>(slots: seq<Slot<V>>,
                                    chains: seq<seq<nat>>, lastfree: int, t: seq<Slot<V>>, g: nat, x: nat, y: nat)
    requires g < |chains| && ChainOk(slots, chains[g], g) && |t| == |slots| && x < |slots| && y < |slots|
    requires forall i :: 0 <= i < |slots| && i != x && i != y ==> t[i] == slots[i]
    requires slots[x].id >= 0 ==> Main(slots[x].id, |slots|) != g
    requires slots[y].id >= 0 ==> Main(slots[y].id, |slots|) != g
    ensures ChainOk(t, chains[g], g)
  {
  }

  /** A chain with a new entry behind its first one. */
  lemma {:induction false} Joined<V>(slots: seq<Slot<V>>, t: seq<Slot<V>>, c: seq<nat>, h: nat, f: nat)
    requires ChainOk(slots, c, h) && c != [] && f < |slots| == |t| && f !in c
    requires t[f].id >= 0 && Main(t[f].id, |t|) == h && t[f].next == slots[h].next
    requires t[h] == slots[h].(next := f)
    requires forall i :: 0 <= i < |slots| && i != f && i != h ==> t[i] == slots[i]
    ensures ChainOk(t, [h, f] + c[1..], h)
  {
    var c' := [h, f] + c[1..];
    forall i | 0 <= i < |c'|
      ensures c'[i] < |t| && t[c'[i]].id >= 0 && Main(t[c'[i]].id, |t|) == h
      ensures t[c'[i]].next == if i + 1 < |c'| then c'[i + 1] else -1
    {
      JoinedAt(slots, t, c, h, f, i);
    }
    DistinctWith(c, f);
  }

  lemma {:induction false} DistinctWith(c: seq<nat>, f: nat)
    requires c != [] && f !in c && forall i, k :: 0 <= i < k < |c| ==> c[i] != c[k]
    ensures var c' := [c[0], f] + c[1..]; forall i, k :: 0 <= i < k < |c'| ==> c'[i] != c'[k]
  {
    var c' := [c[0], f] + c[1..];
    forall i, k | 0 <= i < k < |c'| ensures c'[i] != c'[k] {
      assert (i >= 2 ==> c'[i] == c[i - 1]) && (k >= 2 ==> c'[k] == c[k - 1]);
    }
  }

  lemma {:induction false} JoinedAt<V>(slots: seq<Slot<V>>, t: seq<Slot<V>>, c: seq<nat>, h: nat, f: nat, i: nat)
    requires ChainOk(slots, c, h) && c != [] && f < |slots| == |t| && f !in c && i <= |c|
    requires t[f].id >= 0 && Main(t[f].id, |t|) == h && t[f].next == slots[h].next
    requires t[h] == slots[h].(next := f)
    requires forall i :: 0 <= i < |slots| && i != f && i != h ==> t[i] == slots[i]
    ensures var c' := [h, f] + c[1..];
            && c'[i] < |t| && t[c'[i]].id >= 0 && Main(t[c'[i]].id, |t|) == h
            && t[c'[i]].next == if i + 1 < |c'| then c'[i + 1] else -1
  {
    var c' := [h, f] + c[1..];
    if i == 0 {
    } else if i == 1 {
      assert |c| > 1 ==> c'[2] == c[1];
    } else {
      assert c'[i] == c[i - 1];
      assert i + 1 < |c'| ==> c'[i + 1] == c[i];
      assert c[0] != c[i - 1] && c[i - 1] in c;
      assert t[c[i - 1]] == slots[c[i - 1]];
      assert slots[c[i - 1]].next == if i - 1 + 1 < |c| then c[i - 1 + 1] else -1;
    }
  }

  lemma {:induction false} AlsoOn(c: seq<nat>, f: nat, i: nat)
    requires c != [] && i in c
    ensures i in [c[0], f] + c[1..]
  {
    var k :| 0 <= k < |c| && c[k] == i;
    assert ([c[0], f] + c[1..])[if k == 0 then 0 else k + 1] == i;
  }

  /** A free slot joins the chain of an occupied main position, right behind it. */
  lemma {:induction false} Link<V>(slots: seq<Slot<V>>, chains: seq<seq<nat>>, lastfree: int, id: Id, obj: V)
    requires TableOk(slots, chains, lastfree) && !Holds(slots, id) && lastfree >= 0
    requires slots[lastfree].id < 0
    requires var h := Main(id, |slots|); slots[h].id >= 0 && Main(slots[h].id, |slots|) == h
    ensures var h := Main(id, |slots|);
            && chains[h] != []
            && TableOk(slots[lastfree := Slot(id, Some(obj), slots[h].next)][h := slots[h].(next := lastfree)],
                       chains[h := [h, lastfree] + chains[h][1..]], lastfree - 1)
  {
    var h, f := Main(id, |slots|), lastfree;
    assert SlotOk(slots, chains, h) && ChainOk(slots, chains[h], h) && SlotOk(slots, chains, f);
    var t := slots[f := Slot(id, Some(obj), slots[h].next)][h := slots[h].(next := f)];
    var d := chains[h := [h, f] + chains[h][1..]];
    assert f !in chains[h];
    Joined(slots, t, chains[h], h, f);
    forall g | 0 <= g < |d| ensures ChainOk(t, d[g], g) {
      if g != h { assert ChainOk(slots, chains[g], g); Apart(slots, chains, lastfree, t, g, f, h); }
    }
    forall i | 0 <= i < |t| ensures SlotOk(t, d, i) {
      assert SlotOk(slots, chains, i);
      if i == f { assert d[h][1] == f; }
      else if slots[i].id >= 0 && Main(slots[i].id, |slots|) == h { AlsoOn(chains[h], f, i); }
    }
    assert Distinct(t);
  }

  /** The cursor passes an occupied slot. */
  lemma {:induction false} Pass<V>(slots: seq<Slot<V>>, chains: seq<seq<nat>>, lastfree: int)
    requires TableOk(slots, chains, lastfree) && lastfree >= 0 && slots[lastfree].id >= 0
    ensures TableOk(slots, chains, lastfree - 1)
  {
  }

  /** A slot's object changes. */
  lemma {:induction false} Refill<V>(slots: seq<Slot<V>>, chains: seq<seq<nat>>, lastfree: int, i: nat, obj: Option<V>)
    requires TableOk(slots, chains, lastfree) && i < |slots| && slots[i].id >= 0
    ensures TableOk(slots[i := slots[i].(obj := obj)], chains, lastfree)
  {
    var t := slots[i := slots[i].(obj := obj)];
    forall g | 0 <= g < |chains| ensures ChainOk(t, chains[g], g) { assert ChainOk(slots, chains[g], g); }
    forall k | 0 <= k < |t| ensures SlotOk(t, chains, k) { assert SlotOk(slots, chains, k); }
    assert Distinct(t);
  }

  // ---------------------------------------------------------------- counting

  function Occupied<V>(slots: seq<Slot<V>>): nat {
    if slots == [] then 0 else Occupied(slots[..|slots| - 1]) + if slots[|slots| - 1].id >= 0 then 1 else 0
  }

  predicate HasFree<V>(slots: seq<Slot<V>>) { exists i :: 0 <= i < |slots| && slots[i].id < 0 }

  lemma {:induction false} OccupiedUpdate<V>(slots: seq<Slot<V>>, i: nat, x: Slot<V>)
    requires i < |slots|
    ensures Occupied(slots[i := x])
            == Occupied(slots) + (if x.id >= 0 then 1 else 0) - (if slots[i].id >= 0 then 1 else 0)
  {
    var m := |slots| - 1;
    if i == m {
      assert slots[i := x][..m] == slots[..m];
    } else {
      assert slots[i := x][..m] == slots[..m][i := x];
      OccupiedUpdate(slots[..m], i, x);
    }
  }

  lemma {:induction false} RoomLeft<V>(slots: seq<Slot<V>>)
    ensures Occupied(slots) <= |slots|
    ensures Occupied(slots) < |slots| <==> HasFree(slots)
  {
    if slots != [] {
      var m := |slots| - 1;
      RoomLeft(slots[..m]);
      if HasFree(slots[..m]) {
        var i :| 0 <= i < m && slots[..m][i].id < 0;
        assert slots[i].id < 0;
      } else if HasFree(slots) {
        var i :| 0 <= i < |slots| && slots[i].id < 0;
        assert i < m ==> slots[..m][i].id < 0;
      }
    }
  }

  // ------------------------------------------------------------------ values

  /** One entry is replaced; links may change. */
  lemma {:induction false} PutValue<V>(slots: seq<Slot<V>>, t: seq<Slot<V>>, h: nat, id: Id, obj: V)
    requires |t| == |slots| && h < |t| && Distinct(slots) && Distinct(t) && !Holds(slots, id)
    requires forall i :: 0 <= i < |t| && i != h ==> t[i].id == slots[i].id && t[i].obj == slots[i].obj
    requires t[h].id == id && t[h].obj == Some(obj)
    ensures forall k: Id ::
              Value(t, k) == if k == id then Some(obj) else if k == slots[h].id then None else Value(slots, k)
    ensures forall k: Id :: Holds(t, k) <==> k == id || (Holds(slots, k) && k != slots[h].id)
  {
    ValueAt(t, h);
    forall k: Id | k != id
      ensures Holds(t, k) <==> Holds(slots, k) && k != slots[h].id
      ensures Value(t, k) == if k == slots[h].id then None else Value(slots, k)
    {
      if Holds(t, k) {
        var i :| 0 <= i < |t| && t[i].id == k;
        ValueAt(t, i);
        ValueAt(slots, i);
      }
    }
  }

  lemma {:induction false} RefillValue<V>(slots: seq<Slot<V>>, i: nat, obj: Option<V>)
    requires Distinct(slots) && i < |slots| && slots[i].id >= 0
    ensures var t := slots[i := slots[i].(obj := obj)];
            && (forall k: Id :: Value(t, k) == if k == slots[i].id then obj else Value(slots, k))
            && (forall k: Id :: Holds(t, k) <==> Holds(slots, k))
  {
    var t := slots[i := slots[i].(obj := obj)];
    assert Distinct(t);
    forall k: Id
      ensures Holds(t, k) <==> Holds(slots, k)
      ensures Value(t, k) == if k == slots[i].id then obj else Value(slots, k)
    {
      if Holds(slots, k) {
        var j :| 0 <= j < |slots| && slots[j].id == k;
        ValueAt(t, j);
        ValueAt(slots, j);
      }
    }
  }

  /** The values of the first `i` slots, and of one more. */
  lemma {:induction false} PrefixValue<V>(slots: seq<Slot<V>>, i: nat)
    requires Distinct(slots) && i < |slots|
    ensures forall k: Id :: Value(slots[..i + 1], k) == if k == slots[i].id then slots[i].obj else Value(slots[..i], k)
    ensures forall k: Id :: Holds(slots[..i + 1], k) <==> k == slots[i].id || Holds(slots[..i], k)
    ensures forall k: Id :: k == slots[i].id ==> !Holds(slots[..i], k)
  {
    var a, b := slots[..i], slots[..i + 1];
    assert Distinct(a) && Distinct(b);
    forall k: Id
      ensures Holds(b, k) <==> k == slots[i].id || Holds(a, k)
      ensures Value(b, k) == if k == slots[i].id then slots[i].obj else Value(a, k)
      ensures k == slots[i].id ==> !Holds(a, k)
    {
      if k == slots[i].id {
        assert b[i].id == k;
        ValueAt(b, i);
      } else if Holds(a, k) {
        var j :| 0 <= j < i && a[j].id == k;
        assert b[j].id == k;
        ValueAt(a, j);
        ValueAt(b, j);
      }
    }
  }

  lemma {:induction false} EmptyTable<V>(slots: seq<Slot<V>>, chains: seq<seq<nat>>)
    requires |slots| == |chains| > 0
    requires forall i :: 0 <= i < |slots| ==> slots[i] == Slot(INVALID_ID, None, -1) && chains[i] == []
    ensures TableOk(slots, chains, |slots| - 1) && Occupied(slots) == 0
    ensures forall k: Id :: !Holds(slots, k) && Value(slots, k) == None
  {
    NoneOccupied(slots);
  }

  lemma {:induction false} NoneOccupied<V>(slots: seq<Slot<V>>)
    requires forall i :: 0 <= i < |slots| ==> slots[i].id < 0
    ensures Occupied(slots) == 0
  {
    if slots != [] { NoneOccupied(slots[..|slots| - 1]); }
  }

  /** Is the main position of `id` taken by an entry of another main position? */
  predicate Foreign<V>(slots: seq<Slot<V>>, id: Id)
    requires |slots| > 0
  {
    var s := slots[Main(id, |slots|)];
    s.id >= 0 && Main(s.id, |slots|) != Main(id, |slots|)
  }

  ghost function Level<V>(slots: seq<Slot<V>>, id: Id): nat
    requires |slots| > 0
  {
    (if HasFree(slots) then 0 else 2) + if Foreign(slots, id) then 1 else 0
  }

  /** The chain that a walk from main position `h` follows; perhaps a foreign one. */
  ghost function Path<V>(slots: seq<Slot<V>>, chains: seq<seq<nat>>, h: nat): seq<nat>
    requires h < |slots| == |chains|
  {
    chains[if slots[h].id >= 0 then Main(slots[h].id, |slots|) else h]
  }

  /** A walk for `id` from `h` has come to slot `i`, place `p` of its path. */
  ghost predicate Walking<V>(slots: seq<Slot<V>>, chains: seq<seq<nat>>, id: Id, h: nat, p: nat, i: int) {
    && h < |slots| == |chains| && 0 <= i < |slots|
    && (slots[h].id < 0 ==> i == h)
    && (slots[h].id >= 0 ==> p < |Path(slots, chains, h)| && Path(slots, chains, h)[p] == i)
    && (slots[h].id >= 0 && Main(slots[h].id, |slots|) == h
        ==> (forall q :: 0 <= q < p ==> chains[h][q] < |slots| && slots[chains[h][q]].id != id))
  }

  lemma {:induction false} WalkStart<V>(slots: seq<Slot<V>>,
                                        chains: seq<seq<nat>>, lastfree: int, id: Id, h: nat) returns (p: nat)
    requires TableOk(slots, chains, lastfree) && h < |slots|
    ensures Walking(slots, chains, id, h, p, h)
  {
    p := 0;
    assert SlotOk(slots, chains, h);
    if slots[h].id >= 0 {
      var g := Main(slots[h].id, |slots|);
      assert ChainOk(slots, chains[g], g);
      if g != h { p :| 0 <= p < |chains[g]| && chains[g][p] == h; }
    }
  }

  lemma {:induction false} WalkNext<V>(slots: seq<Slot<V>>,
                                       chains: seq<seq<nat>>, lastfree: int, id: Id, h: nat, p: nat, i: nat)
    requires TableOk(slots, chains, lastfree) && Walking(slots, chains, id, h, p, i) && slots[i].id != id
             && slots[i].next >= 0
    ensures Walking(slots, chains, id, h, p + 1, slots[i].next) && p < |Path(slots, chains, h)|
  {
    assert SlotOk(slots, chains, h);
    var g := Main(slots[h].id, |slots|);
    assert ChainOk(slots, chains[g], g);
    assert slots[chains[g][p]].next == chains[g][p + 1];
  }

  /** At the end of the walk every entry of the main position has been seen. */
  lemma {:induction false} WalkEnds<V>(slots: seq<Slot<V>>,
                                       chains: seq<seq<nat>>, lastfree: int, id: Id, p: nat, i: nat)
    requires TableOk(slots, chains, lastfree) && Walking(slots, chains, id, Main(id, |slots|), p, i)
    requires slots[i].id != id && slots[i].next < 0
    ensures !Holds(slots, id)
  {
    var h := Main(id, |slots|);
    assert ChainOk(slots, chains[h], h);
    forall k | 0 <= k < |slots| ensures slots[k].id != id {
      assert SlotOk(slots, chains, k);
      NotOnPath(slots, chains, lastfree, id, p, i, k);
    }
  }

  lemma {:induction false} NotOnPath<V>(slots: seq<Slot<V>>,
                                        chains: seq<seq<nat>>, lastfree: int, id: Id, p: nat, i: nat, k: nat)
    requires TableOk(slots, chains, lastfree) && Walking(slots, chains, id, Main(id, |slots|), p, i)
    requires slots[i].id != id && slots[i].next < 0 && k < |slots| && SlotOk(slots, chains, k)
    ensures slots[k].id != id
  {
    var h := Main(id, |slots|);
    var c := chains[h];
    assert ChainOk(slots, c, h);
    if c != [] && k in c {
      var q :| 0 <= q < |c| && c[q] == k;
      assert c[0] == h && slots[c[p]].next < 0;
      assert q <= p;
    }
  }

  /** `TableOk`, behind `Shown`. */
  ghost predicate Sound<V>(slots: seq<Slot<V>>, chains: seq<seq<nat>>, lastfree: int) {
    forall k :: Shown(k) ==> TableOk(slots, chains, lastfree)
  }

  lemma {:induction false} SoundFacts<V>(slots: seq<Slot<V>>, chains: seq<seq<nat>>, lastfree: int)
    requires Sound(slots, chains, lastfree)
    ensures Distinct(slots) && forall i :: 0 <= i < |slots| && slots[i].obj.Some? ==> slots[i].id >= 0
  {
    assert Shown(0);
    forall i | 0 <= i < |slots| && slots[i].obj.Some? ensures slots[i].id >= 0 { assert SlotOk(slots, chains, i); }
  }

  class IdMap<V> {
    var size: nat
    var lastfree: int
    var slot: array<Slot<V>>
    ghost var chains: seq<seq<nat>>

    ghost predicate Valid()
      reads this, slot
    {
      slot.Length == size > 0 && PowerOfTwo(size) && -1 <= lastfree < size && Sound(slot[..], chains, lastfree)
    }

    constructor ()
      ensures Valid() && fresh(slot) && size == PRE_ALLOC
      ensures forall k: Id :: Value(slot[..], k) == None && !Holds(slot[..], k)
    {
      size, lastfree := PRE_ALLOC, PRE_ALLOC - 1;
      slot := new Slot<V>[PRE_ALLOC](_ => Slot(INVALID_ID, None, -1));
      chains := seq(PRE_ALLOC, _ => []);
      new;
      assert Shown(0) && PowerOfTwo(2) && PowerOfTwo(4) && PowerOfTwo(8);
      EmptyTable(slot[..], chains);
    }

    /** Adds an entry for an id that has none.  The table grows only when no slot is free. */
    method Insert(id: Id, obj: V)
      requires Valid() && !Holds(slot[..], id)
      modifies this, slot
      ensures Valid()
      ensures forall k: Id :: Value(slot[..], k) == if k == id then Some(obj) else old(Value(slot[..], k))
      ensures forall k: Id :: Holds(slot[..], k) ==> k == id || old(Holds(slot[..], k))
      ensures if old(HasFree(slot[..])) then
                slot == old(slot) && size == old(size) && Occupied(slot[..]) <= old(Occupied(slot[..])) + 1
              else (slot == old(slot) && size == old(size)) || (fresh(slot) && size == 2 * old(size))
      decreases Level(slot[..], id), 1
    {
      assert Shown(0);
      var h := Main(id, size);
      if slot[h].id < 0 {
        PutFirst(id, obj, h);
      } else if Main(slot[h].id, size) != h {
        InsertForeign(id, obj, h);
      } else {
        InsertLinked(id, obj, h);
      }
    }

    /** Takes over its main position, and inserts the evicted entry again, unless that is a tombstone. */
    method InsertForeign(id: Id, obj: V, h: nat)
      requires Valid() && !Holds(slot[..], id) && h == Main(id, size)
      requires slot[h].id >= 0 && Main(slot[h].id, size) != h
      modifies this, slot
      ensures Valid()
      ensures forall k: Id :: Value(slot[..], k) == if k == id then Some(obj) else old(Value(slot[..], k))
      ensures forall k: Id :: Holds(slot[..], k) ==> k == id || old(Holds(slot[..], k))
      ensures if old(HasFree(slot[..])) then
                slot == old(slot) && size == old(size) && Occupied(slot[..]) <= old(Occupied(slot[..])) + 1
              else (slot == old(slot) && size == old(size)) || (fresh(slot) && size == 2 * old(size))
      decreases Level(slot[..], id), 0
    {
      assert Shown(0);
      var temp := slot[h];
      RoomLeft(slot[..]);
      ValueAt(slot[..], h);
      Evict(id, obj, h);
      RoomLeft(slot[..]);
      if temp.obj.Some? {
        Insert(temp.id, temp.obj.value);
      }
    }

    /** Takes a free main position. */
    method PutFirst(id: Id, obj: V, h: nat)
      requires Valid() && !Holds(slot[..], id) && h == Main(id, size) && slot[h].id < 0
      modifies this`chains, slot
      ensures Valid()
      ensures forall k: Id :: Value(slot[..], k) == if k == id then Some(obj) else old(Value(slot[..], k))
      ensures forall k: Id :: Holds(slot[..], k) ==> k == id || old(Holds(slot[..], k))
      ensures Occupied(slot[..]) == old(Occupied(slot[..])) + 1
    {
      assert Shown(0);
      ghost var t := slot[..];
      PutFree(t, chains, lastfree, id, obj);
      OccupiedUpdate(t, h, t[h].(id := id, obj := Some(obj)));
      slot[h] := slot[h].(id := id, obj := Some(obj));
      chains := chains[h := [h]];
      assert slot[..] == t[h := t[h].(id := id, obj := Some(obj))];
      PutValue(t, slot[..], h, id, obj);
    }

    /** Follows the chain of the entry at `h`, which is not at its main position, to the slot before it. */
    method FindBefore(h: nat) returns (last: nat, ghost j: nat)
      requires Valid() && h < size && slot[h].id >= 0 && Main(slot[h].id, size) != h
      ensures last < size && |chains| == size
      ensures var c := chains[Main(slot[h].id, size)]; 0 < j < |c| && c[j] == h && last == c[j - 1]
    {
      assert Shown(0);
      ghost var r := Main(slot[h].id, size);
      ghost var c := chains[r];
      assert SlotOk(slot[..], chains, h) && ChainOk(slot[..], c, r);
      j :| 0 <= j < |c| && c[j] == h;
      last := Main(slot[h].id, size);
      ghost var p := 0;
      while slot[last].next != h
        invariant 0 <= p < j && last == c[p]
        decreases j - p
      {
        assert slot[c[p]].next == c[p + 1];
        last := slot[last].next;
        p := p + 1;
      }
      assert slot[c[p]].next == c[p + 1] && p + 1 == j;
    }

    /** Takes over a slot from an entry of another main position. */
    method Evict(id: Id, obj: V, h: nat)
      requires Valid() && !Holds(slot[..], id) && h == Main(id, size)
      requires slot[h].id >= 0 && Main(slot[h].id, size) != h
      modifies this`chains, slot
      ensures Valid()
      ensures forall k: Id :: Value(slot[..], k) ==
                if k == id then Some(obj) else if k == old(slot[h].id) then None else old(Value(slot[..], k))
      ensures forall k: Id :: Holds(slot[..], k) <==> k == id || (old(Holds(slot[..], k)) && k != old(slot[h].id))
      ensures Occupied(slot[..]) == old(Occupied(slot[..]))
      ensures !Foreign(slot[..], old(slot[h].id))
    {
      hide Occupied, Value, Distinct, PowerOfTwo;
      ghost var t := slot[..];
      var last, j := FindBefore(h);
      ghost var r, c := Main(slot[h].id, size), chains[Main(slot[h].id, size)];
      assert Shown(0);
      Displace(t, chains, lastfree, id, obj, r, j);
      OccupiedUpdate(t, last, t[last].(next := t[h].next));
      OccupiedUpdate(t[last := t[last].(next := t[h].next)], h, Slot(id, Some(obj), -1));
      slot[last] := slot[last].(next := slot[h].next);
      slot[h] := Slot(id, Some(obj), -1);
      chains := chains[r := c[..j] + c[j + 1..]][h := [h]];
      assert slot[..] == t[last := t[last].(next := t[h].next)][h := Slot(id, Some(obj), -1)];
      PutValue(t, slot[..], h, id, obj);
    }

    /** Behind an occupied main position: the next free slot below the cursor, or a bigger table. */
    method InsertLinked(id: Id, obj: V, h: nat)
      requires Valid() && !Holds(slot[..], id) && h == Main(id, size)
      requires slot[h].id >= 0 && Main(slot[h].id, size) == h
      modifies this, slot
      ensures Valid()
      ensures forall k: Id :: Value(slot[..], k) == if k == id then Some(obj) else old(Value(slot[..], k))
      ensures forall k: Id :: Holds(slot[..], k) ==> k == id || old(Holds(slot[..], k))
      ensures if old(HasFree(slot[..])) then
                slot == old(slot) && size == old(size) && Occupied(slot[..]) <= old(Occupied(slot[..])) + 1
              else fresh(slot) && size == 2 * old(size)
      decreases Level(slot[..], id), 0
    {
      assert Shown(0);
      FindFree();
      if lastfree >= 0 {
        LinkAt(id, obj, h);
      } else {
        Rehash();
        RoomLeft(slot[..]);
        Insert(id, obj);
      }
    }

    /** Moves the cursor down to a free slot, or below the table if there is none. */
    method FindFree()
      requires Valid()
      modifies this`lastfree
      ensures Valid() && (lastfree >= 0 ==> slot[lastfree].id < 0) && (lastfree < 0 <==> !HasFree(slot[..]))
    {
      assert Shown(0);
      while lastfree >= 0 && slot[lastfree].id >= 0
        invariant Valid()
        decreases lastfree
      {
        Pass(slot[..], chains, lastfree);
        lastfree := lastfree - 1;
      }
      if lastfree >= 0 { assert slot[..][lastfree].id < 0; }
    }

    method LinkAt(id: Id, obj: V, h: nat)
      requires Valid() && !Holds(slot[..], id) && h == Main(id, size) && lastfree >= 0 && slot[lastfree].id < 0
      requires slot[h].id >= 0 && Main(slot[h].id, size) == h
      modifies this`lastfree, this`chains, slot
      ensures Valid()
      ensures forall k: Id :: Value(slot[..], k) == if k == id then Some(obj) else old(Value(slot[..], k))
      ensures forall k: Id :: Holds(slot[..], k) ==> k == id || old(Holds(slot[..], k))
      ensures Occupied(slot[..]) == old(Occupied(slot[..])) + 1
    {
      hide Occupied, Value, Distinct, PowerOfTwo;
      assert Shown(0);
      ghost var t := slot[..];
      var f := lastfree;
      Link(t, chains, lastfree, id, obj);
      OccupiedUpdate(t, f, Slot(id, Some(obj), t[h].next));
      OccupiedUpdate(t[f := Slot(id, Some(obj), t[h].next)], h, t[h].(next := f));
      slot[f] := Slot(id, Some(obj), slot[h].next);
      slot[h] := slot[h].(next := f);
      chains := chains[h := [h, f] + chains[h][1..]];
      lastfree := lastfree - 1;
      assert slot[..] == t[f := Slot(id, Some(obj), t[h].next)][h := t[h].(next := f)];
      PutValue(t, slot[..], f, id, obj);
    }

    method Clear(newSize: nat)
      requires PowerOfTwo(newSize)
      modifies this
      ensures Valid() && fresh(slot) && size == newSize && Occupied(slot[..]) == 0
      ensures forall k: Id :: Value(slot[..], k) == None && !Holds(slot[..], k)
    {
      size := newSize;
      lastfree := size - 1;
      slot := new Slot<V>[size](_ => Slot(INVALID_ID, None, -1));
      chains := seq(size, _ => []);
      EmptyTable(slot[..], chains);
    }

    /** Doubles a full table; tombstones are left behind. */
    method Rehash()
      requires Valid() && !HasFree(slot[..])
      modifies this
      ensures Valid() && fresh(slot) && size == 2 * old(size)
      ensures forall k: Id :: Value(slot[..], k) == old(Value(slot[..], k))
      ensures forall k: Id :: Holds(slot[..], k) ==> old(Holds(slot[..], k))
      ensures Occupied(slot[..]) <= old(size)
      decreases 2, 0, 0
    {
      SoundFacts(slot[..], chains, lastfree);
      var oldSlot, oldSize := slot, size;
      ghost var t := slot[..];
      assert 2 * oldSize / 2 == oldSize;
      Clear(2 * oldSize);
      ghost var newSlot := slot;
      for i := 0 to oldSize
        modifies this, slot
        invariant Valid() && slot == newSlot && fresh(slot) && slot != oldSlot && size == 2 * oldSize
                  && oldSlot[..] == t
        invariant Occupied(slot[..]) <= i
        invariant forall k: Id :: Value(slot[..], k) == Value(t[..i], k)
        invariant forall k: Id :: Holds(slot[..], k) ==> Holds(t[..i], k)
      {
        PrefixValue(t, i);
        RoomLeft(slot[..]);
        if oldSlot[i].obj.Some? {
          Insert(oldSlot[i].id, oldSlot[i].obj.value);
        }
      }
      assert t[..oldSize] == t;
    }

    /** Walks from the main position of `id`: the slot of its entry, or -1. */
    method Find(id: Id) returns (i: int)
      requires Valid()
      ensures -1 <= i < size
      ensures if i >= 0 then slot[i].id == id && Value(slot[..], id) == slot[i].obj else !Holds(slot[..], id)
    {
      assert Shown(0);
      ghost var t, d, h := slot[..], chains, Main(id, size);
      ghost var p := WalkStart(t, d, lastfree, id, h);
      i := Main(id, size);
      while slot[i].id != id
        invariant Walking(t, d, id, h, p, i)
        decreases |Path(t, d, h)| - p
      {
        if slot[i].next < 0 {
          WalkEnds(t, d, lastfree, id, p, i);
          i := -1;
          return;
        }
        WalkNext(t, d, lastfree, id, h, p, i);
        i := slot[i].next;
        p := p + 1;
      }
      ValueAt(t, i);
    }

    /** Takes the object out of an entry; the entry stays as a tombstone. */
    method Drop(id: Id) returns (obj: Option<V>)
      requires Valid()
      modifies slot
      ensures Valid() && obj == old(Value(slot[..], id))
      ensures forall k: Id :: Value(slot[..], k) == if k == id then None else old(Value(slot[..], k))
    {
      var i := Find(id);
      if i < 0 {
        obj := None;
      } else {
        obj := slot[i].obj;
        Put(i, None);
      }
    }

    /** Changes the object of an entry. */
    method Put(i: nat, obj: Option<V>)
      requires Valid() && i < size && slot[i].id >= 0
      modifies slot
      ensures Valid()
      ensures forall k: Id :: Value(slot[..], k) == if k == slot[i].id then obj else old(Value(slot[..], k))
      ensures slot[i].id == old(slot[i].id)
    {
      assert Shown(0);
      ghost var t := slot[..];
      Refill(t, chains, lastfree, i, obj);
      RefillValue(t, i, obj);
      slot[i] := slot[i].(obj := obj);
      assert slot[..] == t[i := t[i].(obj := obj)];
    }
  }
}
