/** The area-of-interest space as the program keeps it: an index of objects, a hot
    list, four object sets that are refilled by every message, and the allocation
    cookie.  Each method is proved against the rules. */
module AoiSpace {
  import opened Basics
  import opened AoiMap
  import opened AoiRules
  import opened AoiInvariant
  import opened AoiResults

  // sizeof, for 64-bit pointers
  const SPACE_SIZE := 64
  const OBJECT_SIZE := 40
  const PAIR_SIZE := 32
  const MAP_SIZE := 16
  const SLOT_SIZE := 24
  const SET_SIZE := 16
  const POINTER_SIZE := 8

  /** A growing array of objects: its capacity, and what is in it. */
  datatype ObjectSet = ObjectSet(cap: nat, members: seq<AoiRules.Id>)

  // --------------------------------------------------------- lists of slots

  /** The objects that the index holds, slot by slot. */
  function OrderOf(slots: seq<Slot<AoiRules.Id>>): seq<AoiRules.Id> {
    if slots == [] then []
    else
      var s := slots[|slots| - 1];
      OrderOf(slots[..|slots| - 1]) + if s.obj.Some? then [s.obj.value] else []
  }

  /** The table has an entry with an object exactly for the live objects. */
  ghost predicate Knows(slots: seq<Slot<AoiRules.Id>>, objects: map<AoiRules.Id, Object>) {
    forall id: AoiRules.Id :: Value(slots, id) == if id in objects then Some(id) else None
  }

  lemma {:induction false} TableMapped(slots: seq<Slot<AoiRules.Id>>,
                                       chains: seq<seq<nat>>, lastfree: int, objects: map<AoiRules.Id, Object>)
    requires Sound(slots, chains, lastfree) && Knows(slots, objects)
    ensures Mapped(slots, objects)
  {
    SoundFacts(slots, chains, lastfree);
  }

  lemma {:induction false} KnowsWithout(before: seq<Slot<AoiRules.Id>>, after: seq<Slot<AoiRules.Id>>,
                                        objects: map<AoiRules.Id, Object>, id: AoiRules.Id)
    requires Knows(before, objects)
    requires forall k: AoiRules.Id :: Value(after, k) == if k == id then None else Value(before, k)
    ensures Knows(after, objects - {id})
  {
    hide Value;
  }

  ghost predicate Mapped(slots: seq<Slot<AoiRules.Id>>, objects: map<AoiRules.Id, Object>) {
    && Distinct(slots)
    && (forall i :: 0 <= i < |slots| && slots[i].obj.Some? ==> slots[i].id >= 0)
    && Knows(slots, objects)
  }

  lemma {:induction false} OrderIn(slots: seq<Slot<AoiRules.Id>>, id: AoiRules.Id)
    ensures id in OrderOf(slots) <==> exists i :: 0 <= i < |slots| && slots[i].obj == Some(id)
  {
    if slots != [] {
      var m := |slots| - 1;
      OrderIn(slots[..m], id);
      if id in OrderOf(slots[..m]) {
        var i :| 0 <= i < m && slots[..m][i].obj == Some(id);
        assert slots[i].obj == Some(id);
      } else {
        assert forall i :: 0 <= i < m ==> slots[..m][i] == slots[i];
      }
    }
  }

  lemma {:induction false} MappedAt(slots: seq<Slot<AoiRules.Id>>, objects: map<AoiRules.Id, Object>, i: nat)
    requires Mapped(slots, objects) && i < |slots| && slots[i].obj.Some?
    ensures slots[i].obj.value == slots[i].id && slots[i].obj.value in objects
  {
    ValueAt(slots, i);
  }

  ghost predicate NoRepeats(order: seq<AoiRules.Id>) { forall i, j :: 0 <= i < j < |order| ==> order[i] != order[j] }

  lemma {:induction false} OrderSingle(slots: seq<Slot<AoiRules.Id>>, objects: map<AoiRules.Id, Object>, n: nat)
    requires Mapped(slots, objects) && n <= |slots|
    ensures NoRepeats(OrderOf(slots[..n]))
  {
    if n > 0 {
      OrderSingle(slots, objects, n - 1);
      assert slots[..n][..n - 1] == slots[..n - 1] && slots[..n][n - 1] == slots[n - 1];
      if slots[n - 1].obj.Some? {
        MappedAt(slots, objects, n - 1);
        NotBefore(slots, objects, n - 1);
        AppendSingle(OrderOf(slots[..n - 1]), slots[n - 1].obj.value);
        assert OrderOf(slots[..n]) == OrderOf(slots[..n - 1]) + [slots[n - 1].obj.value];
      } else {
        assert OrderOf(slots[..n]) == OrderOf(slots[..n - 1]) + [] == OrderOf(slots[..n - 1]);
      }
    }
  }

  lemma {:induction false} AppendSingle(order: seq<AoiRules.Id>, id: AoiRules.Id)
    requires id !in order && NoRepeats(order)
    ensures NoRepeats(order + [id])
  {
    forall i, j | 0 <= i < j < |order + [id]| ensures (order + [id])[i] != (order + [id])[j] {
      assert (order + [id])[i] == order[i] && order[i] in order;
    }
  }

  lemma {:induction false} NotBefore(slots: seq<Slot<AoiRules.Id>>, objects: map<AoiRules.Id, Object>, n: nat)
    requires Mapped(slots, objects) && n < |slots| && slots[n].obj.Some?
    ensures slots[n].obj.value !in OrderOf(slots[..n])
  {
    var id := slots[n].obj.value;
    OrderIn(slots[..n], id);
    if id in OrderOf(slots[..n]) {
      var i :| 0 <= i < n && slots[..n][i].obj == Some(id);
      MappedAt(slots, objects, i);
      MappedAt(slots, objects, n);
    }
  }

  /** The index lists every object once. */
  lemma {:induction false} OrderLists(slots: seq<Slot<AoiRules.Id>>, objects: map<AoiRules.Id, Object>)
    requires Mapped(slots, objects)
    ensures Lists(OrderOf(slots), objects)
  {
    assert slots[..|slots|] == slots;
    OrderSingle(slots, objects, |slots|);
    forall id | id in OrderOf(slots) ensures id in objects {
      OrderIn(slots, id);
      var i :| 0 <= i < |slots| && slots[i].obj == Some(id);
      MappedAt(slots, objects, i);
    }
    forall id | id in objects ensures id in OrderOf(slots) {
      assert Value(slots, id) == Some(id);
      var i :| 0 <= i < |slots| && slots[i].id == id;
      ValueAt(slots, i);
      OrderIn(slots, id);
    }
  }

  function IdSet(order: seq<AoiRules.Id>): set<AoiRules.Id> { set id | id in order }

  lemma {:induction false} DistinctCard(order: seq<AoiRules.Id>)
    requires forall i, j :: 0 <= i < j < |order| ==> order[i] != order[j]
    ensures |IdSet(order)| == |order|
  {
    if order == [] {
      assert IdSet(order) == {};
    } else {
      var m := |order| - 1;
      DistinctCard(order[..m]);
      assert order == order[..m] + [order[m]];
      assert order[m] !in IdSet(order[..m]);
      assert IdSet(order) == IdSet(order[..m]) + {order[m]};
    }
  }

  lemma {:induction false} ListsLength(order: seq<AoiRules.Id>, objects: map<AoiRules.Id, Object>)
    requires Lists(order, objects)
    ensures |order| == |objects|
  {
    DistinctCard(order);
    assert IdSet(order) == objects.Keys;
  }

  // -------------------------------------------------------- meetings in parts

  lemma {:induction false} MeetAllSame(s: Space, ps: seq<(AoiRules.Id, AoiRules.Id)>)
    ensures SameBut(s.objects, MeetAll(s, ps).objects)
  {
    if ps != [] {
      MeetAllSame(s, ps[..|ps| - 1]);
      MeetSame(MeetAll(s, ps[..|ps| - 1]), ps[|ps| - 1].0, ps[|ps| - 1].1);
    }
  }

  /** Meetings do not move anybody. */
  lemma {:induction false} MeetsStable(s: Space, ps: seq<(AoiRules.Id, AoiRules.Id)>, w: AoiRules.Id, m: AoiRules.Id)
    ensures Meets(MeetAll(s, ps), w, m) == Meets(s, w, m)
    ensures MeetReports(MeetAll(s, ps), [(w, m)]) == MeetReports(s, [(w, m)])
  {
    MeetAllSame(s, ps);
    assert [(w, m)][..0] == [];
  }

  /** One more meeting. */
  lemma {:induction false} MeetOne(s: Space, done: seq<(AoiRules.Id, AoiRules.Id)>, w: AoiRules.Id, m: AoiRules.Id)
    ensures MeetAll(s, done + [(w, m)]) == Meet(MeetAll(s, done), w, m)
    ensures MeetReports(s, done + [(w, m)])
            == MeetReports(s, done) + if Meets(MeetAll(s, done), w, m) then [(w, m)] else []
  {
    assert (done + [(w, m)])[..|done|] == done;
    MeetsStable(s, done, w, m);
  }

  // ----------------------------------------------------------- settling

  /** The objects after the set_push of some of them. */
  function SettledSome(objects: map<AoiRules.Id, Object>, order: seq<AoiRules.Id>): map<AoiRules.Id, Object> {
    map id | id in objects :: if id in order then Settle(objects[id]) else objects[id]
  }

  lemma {:induction false} SettleOne(objects: map<AoiRules.Id, Object>, order: seq<AoiRules.Id>, id: AoiRules.Id)
    requires id in objects && id !in order
    ensures SettledSome(objects, order)[id] == objects[id]
    ensures SettledSome(objects, order + [id]) == SettledSome(objects, order)[id := Settle(objects[id])]
    ensures |SettledSome(objects, order)| == |objects|
  {
    assert SettledSome(objects, order).Keys == objects.Keys;
  }

  lemma {:induction false} MembersOne(objects: map<AoiRules.Id, Object>, order: seq<AoiRules.Id>, id: AoiRules.Id,
                                      watchers: bool, moving: bool)
    requires id in objects
    ensures Members(objects, order + [id], watchers, moving)
            == Members(objects, order, watchers, moving)
               + if (if watchers then objects[id].watcher else objects[id].marker)
                 && objects[id].move == moving then [id] else []
  {
    assert (order + [id])[..|order|] == order;
  }

  lemma {:induction false} RemoveCard<T>(m: map<T, Object>, k: T)
    requires k in m
    ensures |m - {k}| == |m| - 1
  {
    assert m == (m - {k})[k := m[k]];
  }

  lemma {:induction false} EmptyInv()
    ensures Inv(EMPTY)
  {
  }

  class Engine {
    const index: IdMap<AoiRules.Id>
    var objects: map<AoiRules.Id, Object>
    var hot: seq<Pair>
    var watcherStatic: ObjectSet
    var watcherMove: ObjectSet
    var markerStatic: ObjectSet
    var markerMove: ObjectSet
    // the allocation cookie
    var count: int
    var current: int

    ghost function View(): Space
      reads `objects, `hot
    {
      Space(objects, hot)
    }

    /** The index knows exactly the live objects. */
    ghost predicate Indexed()
      reads this, index, index.slot
    {
      index.Valid() && Knows(index.slot[..], objects)
    }

    function SetCells(): int
      reads `watcherStatic, `watcherMove, `markerStatic, `markerMove
    {
      watcherStatic.cap + watcherMove.cap + markerStatic.cap + markerMove.cap
    }

    /** What is allocated beyond objects, hot pairs, and the arrays. */
    ghost function Fixed(): (int, int)
      reads this, index
    {
      (count - |objects| - |hot|,
       current - OBJECT_SIZE * |objects| - PAIR_SIZE * |hot| - SLOT_SIZE * index.size - POINTER_SIZE * SetCells())
    }

    ghost predicate Valid()
      reads this, index, index.slot
    {
      Indexed() && Fixed() == (11, SPACE_SIZE + MAP_SIZE + 4 * SET_SIZE) && Inv(View())
    }

    /** aoi_create */
    constructor ()
      ensures Valid() && View() == EMPTY && fresh(index) && fresh(index.slot)
    {
      index := new IdMap<AoiRules.Id>();
      objects, hot := map[], [];
      watcherStatic, watcherMove := ObjectSet(PRE_ALLOC, []), ObjectSet(PRE_ALLOC, []);
      markerStatic, markerMove := ObjectSet(PRE_ALLOC, []), ObjectSet(PRE_ALLOC, []);
      // the space, the map and its slots, and four sets with their slots
      count := 1 + 2 + 4 * 2;
      current := SPACE_SIZE + MAP_SIZE + SLOT_SIZE * PRE_ALLOC + 4 * (SET_SIZE + POINTER_SIZE * PRE_ALLOC);
      new;
      EmptyInv();
    }

    method Alloc(size: nat)
      modifies `count, `current
      ensures count == old(count) + 1 && current == old(current) + size
    {
      count := count + 1;
      current := current + size;
    }

    method Free(size: nat)
      modifies `count, `current
      ensures count == old(count) - 1 && current == old(current) - size
    {
      count := count - 1;
      current := current - size;
    }

    // --------------------------------------------------------------- objects

    /** map_query: the object of an id, made when there is none. */
    method MapQuery(id: AoiRules.Id)
      requires Indexed()
      modifies `objects, `count, `current, index, index.slot
      ensures Indexed() && Fixed() == old(Fixed()) && (index.slot == old(index.slot) || fresh(index.slot))
      ensures View() == Query(old(View()), id) && id in objects
    {
      hide Holds, Occupied, HasFree;
      var i := index.Find(id);
      if i >= 0 && index.slot[i].obj.Some? {
        return;
      }
      EnterIndex(id, i);
      hide Value, Knows;
      objects := objects[id := NewObject()];
      Alloc(OBJECT_SIZE);
    }

    /** The identifier goes into the slot that it had, or else into a new one. */
    method EnterIndex(id: AoiRules.Id, i: int)
      requires Indexed() && id !in objects && -1 <= i < index.size
      requires if i >= 0 then index.slot[i].id == id else !Holds(index.slot[..], id)
      modifies `current, index, index.slot
      ensures index.Valid() && Knows(index.slot[..], objects[id := NewObject()])
      ensures index.slot == old(index.slot) || fresh(index.slot)
      ensures current - SLOT_SIZE * index.size == old(current - SLOT_SIZE * index.size)
    {
      hide Holds, Value, Occupied, HasFree;
      if i >= 0 {
        index.Put(i, Some(id));
      } else {
        var before := index.size;
        index.Insert(id, id);
        current := current + SLOT_SIZE * (index.size - before);
      }
    }

    /** drop_object: one reference less; the last one takes the object. */
    method DropObject(id: AoiRules.Id)
      requires Indexed() && id in objects
      modifies `objects, `count, `current, index.slot
      ensures Indexed() && Fixed() == old(Fixed()) && View() == DropRef(old(View()), id)
    {
      var o := objects[id];
      if o.ref - 1 <= 0 {
        DeleteObject(id);
      } else {
        ghost var before := objects;
        objects := objects[id := o.(ref := o.ref - 1)];
        assert Knows(index.slot[..], before);
      }
    }

    method DeleteObject(id: AoiRules.Id)
      requires Indexed() && id in objects
      modifies `objects, `count, `current, index.slot
      ensures Indexed() && Fixed() == old(Fixed()) && objects == old(objects) - {id}
    {
      hide Knows;
      ghost var slots := index.slot[..];
      var dropped := index.Drop(id);
      KnowsWithout(slots, index.slot[..], objects, id);
      RemoveCard(objects, id);
      objects := objects - {id};
      Free(OBJECT_SIZE);
    }

    // ---------------------------------------------------------------- update

    method ScanMode(mode: string) returns (r: Request)
      ensures r == Scan(mode)
    {
      r := Request(false, false, false);
      var i := 0;
      while i < |mode| && !r.drop
        invariant 0 <= i <= |mode| && r == Scan(mode[..i])
      {
        assert mode[..i + 1][..i] == mode[..i];
        match mode[i] {
          case 'w' => r := r.(watcher := true);
          case 'm' => r := r.(marker := true);
          case 'd' => r := r.(drop := true);
          case _ =>
        }
        i := i + 1;
      }
      ScanStops(mode, i);
      assert mode[..|mode|] == mode;
    }

    /** Changes a live object. */
    method SetObject(id: AoiRules.Id, o: Object)
      requires Indexed() && id in objects
      modifies `objects
      ensures Indexed() && Fixed() == old(Fixed()) && objects == old(objects)[id := o]
    {
      ghost var before := objects;
      objects := objects[id := o];
      assert Knows(index.slot[..], before);
    }

    method UpdateObject(id: AoiRules.Id, mode: string, pos: Vec)
      requires Indexed()
      modifies `objects, `count, `current, index, index.slot
      ensures Indexed() && Fixed() == old(Fixed()) && (index.slot == old(index.slot) || fresh(index.slot))
      ensures View() == Update(old(View()), id, mode, pos)
    {
      hide Indexed, Fixed;
      MapQuery(id);
      var r := ScanMode(mode);
      var o := objects[id];
      if r.drop {
        if !o.drop {
          SetObject(id, o.(watcher := false, marker := false, move := false, drop := true));
          DropObject(id);
        }
        return;
      }
      if o.drop {
        o := o.(drop := false, ref := o.ref + 1);
      }
      SetObject(id, Moved(o, r, pos));
    }

    /** aoi_update */
    method AoiUpdate(id: AoiRules.Id, mode: string, pos: Vec)
      requires Valid()
      modifies `objects, `count, `current, index, index.slot
      ensures Valid() && (index.slot == old(index.slot) || fresh(index.slot))
      ensures View() == Update(old(View()), id, mode, pos)
    {
      UpdateKeeps(View(), id, mode, pos);
      UpdateObject(id, mode, pos);
    }

    // ----------------------------------------------------------- flush_pair

    method FreePair()
      requires Indexed()
      modifies `count, `current
      ensures Indexed() && Fixed() == (old(Fixed()).0 - 1, old(Fixed()).1 - PAIR_SIZE)
    {
      Free(PAIR_SIZE);
    }

    /** drop_pair, for a pair that is no longer in the list. */
    method DropPairOf(p: Pair)
      requires Indexed() && p.watcher in objects && p.marker in objects && p.watcher != p.marker
      modifies `objects, `count, `current, index.slot
      ensures Indexed() && View() == DropPair(old(View()), p)
      ensures Fixed() == (old(Fixed()).0 - 1, old(Fixed()).1 - PAIR_SIZE)
    {
      hide DropRef, Knows;
      DropRefOthers(View(), p.watcher, p.marker);
      DropObject(p.watcher);
      DropObject(p.marker);
      FreePair();
    }

    /** flush_pair; the list is rebuilt from what is kept. */
    method FlushPair() returns (reported: seq<(AoiRules.Id, AoiRules.Id)>)
      requires Valid()
      modifies `objects, `hot, `count, `current, index.slot
      ensures Indexed() && Fixed() == old(Fixed())
      ensures View() == Flushed(old(View())) && reported == FlushReports(old(View()))
    {
      hide Indexed, Fixed, DropRef;
      ghost var s := View();
      var list, kept := hot, [];
      reported := [];
      assert list[..0] == [] && [] + list[0..] == list;
      for n := 0 to |list|
        invariant Indexed() && Fixed() == old(Fixed()) && s.hot == list
        invariant hot == kept + list[n..]
        invariant FlushPairs(s, list[..n]) == Flush(s.(objects := objects), kept, reported)
      {
        FlushOne(s, n);
        DropPairObjects(s.(objects := objects), s.(objects := objects), list[n]);
        var v := FlushNext(list[n], kept, list[n + 1..], s);
        if v == Kept { kept := kept + [list[n]]; }
        if v == Reported { reported := reported + [(list[n].watcher, list[n].marker)]; }
      }
      WholeList(list, kept);
    }

    /** One pair of flush_pair. */
    method FlushNext(p: Pair, kept: seq<Pair>, rest: seq<Pair>, ghost s: Space) returns (v: Verdict)
      requires Indexed() && p.watcher in objects && p.marker in objects && p.watcher != p.marker
      requires hot == kept + ([p] + rest)
      modifies `objects, `hot, `count, `current, index.slot
      ensures Indexed() && Fixed() == old(Fixed()) && v == JudgeIn(s.(objects := old(objects)), p)
      ensures hot == (if v == Kept then kept + [p] else kept) + rest
      ensures objects == if v == Kept then old(objects) else DropPair(s.(objects := old(objects)), p).objects
    {
      hide Indexed, Fixed, DropPair, Judge;
      v := Judge(objects[p.watcher], objects[p.marker], p);
      if v == Kept {
        assert hot == kept + [p] + rest;
      } else {
        Shorten(kept, p, rest);
        DropPairObjects(View(), s.(objects := objects), p);
        DropPairOf(p);
      }
    }

    method Shorten(kept: seq<Pair>, p: Pair, rest: seq<Pair>)
      requires Indexed() && hot == kept + ([p] + rest)
      modifies `hot
      ensures Indexed() && hot == kept + rest && Fixed() == (old(Fixed()).0 + 1, old(Fixed()).1 + PAIR_SIZE)
    {
      hot := kept + rest;
    }

    // ------------------------------------------------------------- set_push

    function SetOf(watchers: bool, moving: bool): ObjectSet
      reads `watcherStatic, `watcherMove, `markerStatic, `markerMove
    {
      if watchers then (if moving then watcherMove else watcherStatic)
      else if moving then markerMove else markerStatic
    }

    /** set_push_back: a full array doubles. */
    method Push(watchers: bool, moving: bool, id: AoiRules.Id)
      requires Indexed()
      modifies `watcherStatic, `watcherMove, `markerStatic, `markerMove, `current
      ensures Indexed() && Fixed() == old(Fixed())
      ensures forall w, m :: SetOf(w, m).members
                == if w == watchers && m == moving then old(SetOf(w, m).members) + [id] else old(SetOf(w, m).members)
    {
      var set_ := SetOf(watchers, moving);
      var cap := if |set_.members| >= set_.cap then set_.cap * 2 else set_.cap;
      current := current + POINTER_SIZE * (cap - set_.cap);
      var r := ObjectSet(cap, set_.members + [id]);
      if watchers {
        if moving { watcherMove := r; } else { watcherStatic := r; }
      } else {
        if moving { markerMove := r; } else { markerStatic := r; }
      }
    }

    method Empty()
      requires Indexed()
      modifies `watcherStatic, `watcherMove, `markerStatic, `markerMove
      ensures Indexed() && Fixed() == old(Fixed())
      ensures forall w, m :: SetOf(w, m).members == []
    {
      watcherStatic := watcherStatic.(members := []);
      watcherMove := watcherMove.(members := []);
      markerStatic := markerStatic.(members := []);
      markerMove := markerMove.(members := []);
    }

    /** set_push of one object. */
    method SetPush(id: AoiRules.Id)
      requires Indexed() && id in objects
      modifies `objects, `watcherStatic, `watcherMove, `markerStatic, `markerMove, `current
      ensures Indexed() && Fixed() == old(Fixed())
      ensures objects == old(objects)[id := Settle(old(objects)[id])]
      ensures forall w, m :: SetOf(w, m).members == old(SetOf(w, m).members)
                + if (if w then old(objects)[id].watcher else old(objects)[id].marker)
                  && old(objects)[id].move == m then [id] else []
    {
      var o := objects[id];
      if o.watcher { Push(true, o.move, id); }
      if o.marker { Push(false, o.move, id); }
      SetObject(id, Settle(o));
    }

    /** map_foreach with set_push. */
    method PushAll(ghost order: seq<AoiRules.Id>)
      requires Indexed() && order == OrderOf(index.slot[..])
      requires forall w, m :: SetOf(w, m).members == []
      modifies `objects, `watcherStatic, `watcherMove, `markerStatic, `markerMove, `current
      ensures Indexed() && Fixed() == old(Fixed()) && objects == Settled(old(objects))
      ensures forall w, m :: SetOf(w, m).members == Members(old(objects), order, w, m)
    {
      ghost var before, slots := objects, index.slot[..];
      TableMapped(slots, index.chains, index.lastfree, before);
      SettledNone(before);
      for i := 0 to index.slot.Length
        invariant Indexed() && Fixed() == old(Fixed()) && index.slot[..] == slots
        invariant objects == SettledSome(before, OrderOf(slots[..i]))
        invariant forall w, m :: SetOf(w, m).members == Members(before, OrderOf(slots[..i]), w, m)
      {
        PushSlot(i, before, slots);
      }
      assert slots[..|slots|] == slots;
      TableMapped(slots, index.chains, index.lastfree, before);
      SettledAll(before, order, slots);
    }

    method PushSlot(i: nat, ghost before: map<AoiRules.Id, Object>, ghost slots: seq<Slot<AoiRules.Id>>)
      requires Indexed() && i < index.slot.Length && index.slot[..] == slots && Mapped(slots, before)
      requires objects == SettledSome(before, OrderOf(slots[..i]))
      requires forall w, m :: SetOf(w, m).members == Members(before, OrderOf(slots[..i]), w, m)
      modifies `objects, `watcherStatic, `watcherMove, `markerStatic, `markerMove, `current
      ensures Indexed() && Fixed() == old(Fixed())
      ensures objects == SettledSome(before, OrderOf(slots[..i + 1]))
      ensures forall w, m :: SetOf(w, m).members == Members(before, OrderOf(slots[..i + 1]), w, m)
    {
      hide Indexed, Fixed;
      if index.slot[i].obj.Some? {
        PushFacts(slots, before, i);
        SetPush(index.slot[i].obj.value);
      } else {
        PushNothing(slots, i);
      }
    }

    // ------------------------------------------------------------- gen_pair

    method GenPair(w: AoiRules.Id, m: AoiRules.Id) returns (near: bool)
      requires Indexed() && w in objects && m in objects
      modifies `objects, `hot, `count, `current
      ensures Indexed() && Fixed() == old(Fixed())
      ensures View() == Meet(old(View()), w, m) && near == Meets(old(View()), w, m)
    {
      near := false;
      if w == m {
        return;
      }
      var distance2 := Dist2(objects[w].position, objects[m].position);
      if distance2 < AOI_RADIS2 {
        near := true;
        return;
      }
      if distance2 > LEAVE_AOI_RADIS {
        return;
      }
      AddPair(w, m);
    }

    method AddPair(w: AoiRules.Id, m: AoiRules.Id)
      requires Indexed() && w in objects && m in objects && w != m
      modifies `objects, `hot, `count, `current
      ensures Indexed() && Fixed() == old(Fixed())
      ensures View() == Grab(Grab(old(View()), w), m)
                        .(hot := [Pair(w, m, old(objects)[w].version, old(objects)[m].version)] + old(hot))
    {
      var ow, om := objects[w], objects[m];
      SetObject(w, ow.(ref := ow.ref + 1));
      SetObject(m, om.(ref := om.ref + 1));
      hot := [Pair(w, m, ow.version, om.version)] + hot;
      Alloc(PAIR_SIZE);
    }

    /** gen_pair_list; `s` and `done` say what has been met before. */
    method GenPairList(ws: seq<AoiRules.Id>, ms: seq<AoiRules.Id>, ghost s: Space,
                       ghost done: seq<(AoiRules.Id, AoiRules.Id)>)
      returns (reported: seq<(AoiRules.Id, AoiRules.Id)>)
      requires Indexed() && View() == MeetAll(s, done)
      requires (forall w <- ws :: w in s.objects) && (forall m <- ms :: m in s.objects)
      modifies `objects, `hot, `count, `current
      ensures Indexed() && Fixed() == old(Fixed())
      ensures View() == MeetAll(s, done + Rows(ws, ms))
      ensures MeetReports(s, done) + reported == MeetReports(s, done + Rows(ws, ms))
    {
      reported := [];
      assert done + Rows(ws[..0], ms) == done;
      hide Indexed, Fixed, View, MeetAll, MeetReports, Rows;
      for i := 0 to |ws|
        invariant Indexed() && Fixed() == old(Fixed())
        invariant View() == MeetAll(s, done + Rows(ws[..i], ms))
        invariant MeetReports(s, done) + reported == MeetReports(s, done + Rows(ws[..i], ms))
      {
        ghost var before := reported;
        assert ws[i] in ws;
        var more := GenRow(ws[i], ms, s, done + Rows(ws[..i], ms));
        reported := reported + more;
        RowsStep(done, ws, ms, i);
        ConcatAssociates(MeetReports(s, done), before, more);
      }
      assert ws[..|ws|] == ws;
    }

    method GenRow(w: AoiRules.Id, ms: seq<AoiRules.Id>, ghost s: Space, ghost done: seq<(AoiRules.Id, AoiRules.Id)>)
      returns (reported: seq<(AoiRules.Id, AoiRules.Id)>)
      requires Indexed() && View() == MeetAll(s, done)
      requires w in s.objects && forall m <- ms :: m in s.objects
      modifies `objects, `hot, `count, `current
      ensures Indexed() && Fixed() == old(Fixed())
      ensures View() == MeetAll(s, done + Row(w, ms))
      ensures MeetReports(s, done) + reported == MeetReports(s, done + Row(w, ms))
    {
      reported := [];
      assert done + Row(w, ms[..0]) == done;
      hide Indexed, Fixed, View, MeetAll, MeetReports, Row;
      for j := 0 to |ms|
        invariant Indexed() && Fixed() == old(Fixed())
        invariant View() == MeetAll(s, done + Row(w, ms[..j]))
        invariant MeetReports(s, done) + reported == MeetReports(s, done + Row(w, ms[..j]))
      {
        ghost var before := reported;
        RowStep(done, w, ms, j);
        assert ms[j] in ms;
        var more := GenNext(w, ms[j], s, done + Row(w, ms[..j]));
        reported := reported + more;
        ConcatAssociates(MeetReports(s, done), before, more);
      }
      assert ms[..|ms|] == ms;
    }

    method GenNext(w: AoiRules.Id, m: AoiRules.Id, ghost s: Space, ghost done: seq<(AoiRules.Id, AoiRules.Id)>)
      returns (more: seq<(AoiRules.Id, AoiRules.Id)>)
      requires Indexed() && View() == MeetAll(s, done) && w in s.objects && m in s.objects
      modifies `objects, `hot, `count, `current
      ensures Indexed() && Fixed() == old(Fixed())
      ensures View() == MeetAll(s, done + [(w, m)]) && MeetReports(s, done) + more == MeetReports(s, done + [(w, m)])
    {
      MeetOne(s, done, w, m);
      MeetAllSame(s, done);
      var near := GenPair(w, m);
      more := if near then [(w, m)] else [];
    }

    // ---------------------------------------------------------- aoi_message

    /** The three lists of meetings. */
    method Generate(ghost s: Space, ghost cs: seq<(AoiRules.Id, AoiRules.Id)>)
      returns (reported: seq<(AoiRules.Id, AoiRules.Id)>)
      requires Indexed() && View() == s
      requires forall w, m :: forall id <- SetOf(w, m).members :: id in objects
      requires cs == Rows(watcherStatic.members, markerMove.members) + Rows(watcherMove.members, markerStatic.members)
                     + Rows(watcherMove.members, markerMove.members)
      modifies `objects, `hot, `count, `current
      ensures Indexed() && Fixed() == old(Fixed())
      ensures View() == MeetAll(s, cs) && reported == MeetReports(s, cs)
    {
      ghost var a := Rows(watcherStatic.members, markerMove.members);
      ghost var b := Rows(watcherMove.members, markerStatic.members);
      ghost var c := Rows(watcherMove.members, markerMove.members);
      assert SetOf(true, false) == watcherStatic && SetOf(true, true) == watcherMove;
      assert SetOf(false, false) == markerStatic && SetOf(false, true) == markerMove;
      assert MeetAll(s, []) == s && MeetReports(s, []) == [];
      var first := GenPairList(watcherStatic.members, markerMove.members, s, []);
      assert [] + a == a && [] + first == first;
      var second := GenPairList(watcherMove.members, markerStatic.members, s, a);
      var third := GenPairList(watcherMove.members, markerMove.members, s, a + b);
      reported := first + second + third;
    }

    /** aoi_message; `order` is the order of the index. */
    method AoiMessage() returns (reported: seq<(AoiRules.Id, AoiRules.Id)>, ghost order: seq<AoiRules.Id>)
      requires Valid()
      modifies `objects, `hot, `watcherStatic, `watcherMove, `markerStatic, `markerMove, `count, `current, index.slot
      ensures Valid() && Lists(order, Flushed(old(View())).objects)
      ensures View() == Message(old(View()), order) && reported == Reports(old(View()), order)
    {
      ghost var s := View();
      var hotReports := FlushPair();
      ghost var f := View();
      order := OrderOf(index.slot[..]);
      TableMapped(index.slot[..], index.chains, index.lastfree, objects);
      OrderLists(index.slot[..], objects);
      Empty();
      PushAll(order);
      MembersLive(f.objects, order);
      var more := Generate(f.(objects := Settled(f.objects)), Candidates(f.objects, order));
      reported := hotReports + more;
      MessageKeeps(s, order);
    }

    // ---------------------------------------------------------- aoi_release

    /** aoi_release: everything allocated is freed. */
    method Release()
      requires Valid()
      modifies `count, `current
      ensures count == 0 && current == 0
    {
      hide Inv, Indexed;
      DeleteObjects();
      Free(SLOT_SIZE * index.size);
      Free(MAP_SIZE);
      DeletePairs();
      DeleteSets();
      Free(SPACE_SIZE);
    }

    /** map_foreach with delete_object: every live object is freed once. */
    method DeleteObjects()
      requires Indexed()
      modifies `count, `current
      ensures count == old(count) - |objects| && current == old(current) - OBJECT_SIZE * |objects|
    {
      ghost var slots := index.slot[..];
      TableMapped(slots, index.chains, index.lastfree, objects);
      OrderLists(slots, objects);
      ListsLength(OrderOf(slots), objects);
      for i := 0 to index.slot.Length
        invariant count == old(count) - |OrderOf(slots[..i])|
                  && current == old(current) - OBJECT_SIZE * |OrderOf(slots[..i])|
      {
        assert slots[..i + 1][..i] == slots[..i];
        if index.slot[i].obj.Some? { Free(OBJECT_SIZE); }
      }
      assert slots[..|slots|] == slots;
    }

    method DeletePairs()
      modifies `count, `current
      ensures count == old(count) - |hot| && current == old(current) - PAIR_SIZE * |hot|
    {
      for i := 0 to |hot|
        invariant count == old(count) - i && current == old(current) - PAIR_SIZE * i
      {
        Free(PAIR_SIZE);
      }
    }

    method DeleteSets()
      modifies `count, `current
      ensures count == old(count) - 8 && current == old(current) - POINTER_SIZE * SetCells() - 4 * SET_SIZE
    {
      DeleteSet(watcherStatic);
      DeleteSet(markerStatic);
      DeleteSet(watcherMove);
      DeleteSet(markerMove);
    }

    method DeleteSet(set_: ObjectSet)
      modifies `count, `current
      ensures count == old(count) - 2 && current == old(current) - POINTER_SIZE * set_.cap - SET_SIZE
    {
      Free(POINTER_SIZE * set_.cap);
      Free(SET_SIZE);
    }
  }

  lemma {:induction false} ConcatAssociates<T>(a: seq<T>, b: seq<T>, c: seq<T>)
    ensures a + (b + c) == a + b + c
  {
  }

  lemma {:induction false} RowsStep(done: seq<(AoiRules.Id, AoiRules.Id)>, ws: seq<AoiRules.Id>, ms: seq<AoiRules.Id>,
                                    i: nat)
    requires i < |ws|
    ensures done + Rows(ws[..i], ms) + Row(ws[i], ms) == done + Rows(ws[..i + 1], ms)
  {
    assert ws[..i + 1][..i] == ws[..i];
  }

  lemma {:induction false} RowStep(done: seq<(AoiRules.Id, AoiRules.Id)>, w: AoiRules.Id, ms: seq<AoiRules.Id>, j: nat)
    requires j < |ms|
    ensures done + Row(w, ms[..j]) + [(w, ms[j])] == done + Row(w, ms[..j + 1])
  {
    assert ms[..j + 1][..j] == ms[..j];
  }

  lemma {:induction false} MembersLive(objects: map<AoiRules.Id, Object>, order: seq<AoiRules.Id>)
    requires Lists(order, objects)
    ensures forall w, m :: forall id <- Members(objects, order, w, m) :: id in objects
  {
    forall w, m ensures forall id <- Members(objects, order, w, m) :: id in objects {
      MembersAre(objects, order, w, m);
    }
  }

  lemma {:induction false} SettledNone(objects: map<AoiRules.Id, Object>)
    ensures SettledSome(objects, []) == objects
    ensures forall w, m :: Members(objects, [], w, m) == []
  {
  }

  lemma {:induction false} SettledAll(objects: map<AoiRules.Id, Object>, order: seq<AoiRules.Id>,
                                      slots: seq<Slot<AoiRules.Id>>)
    requires Mapped(slots, objects) && order == OrderOf(slots)
    ensures SettledSome(objects, order) == Settled(objects)
  {
    OrderLists(slots, objects);
  }

  lemma {:induction false} PushNothing(slots: seq<Slot<AoiRules.Id>>, i: nat)
    requires i < |slots| && slots[i].obj.None?
    ensures OrderOf(slots[..i + 1]) == OrderOf(slots[..i])
  {
    assert slots[..i + 1][..i] == slots[..i] && slots[..i + 1][i] == slots[i];
    assert OrderOf(slots[..i]) + [] == OrderOf(slots[..i]);
  }

  /** The next object of a walk over the index. */
  lemma {:induction false} PushFacts(slots: seq<Slot<AoiRules.Id>>, objects: map<AoiRules.Id, Object>, i: nat)
    requires Mapped(slots, objects) && i < |slots| && slots[i].obj.Some?
    ensures var id, order := slots[i].obj.value, OrderOf(slots[..i]);
            && OrderOf(slots[..i + 1]) == order + [id]
            && id in objects && SettledSome(objects, order)[id] == objects[id]
            && SettledSome(objects, order + [id]) == SettledSome(objects, order)[id := Settle(objects[id])]
            && forall w, m :: Members(objects, order + [id], w, m)
                 == Members(objects, order, w, m) + if (if w then objects[id].watcher else objects[id].marker)
                   && objects[id].move == m then [id] else []
  {
    var id, order := slots[i].obj.value, OrderOf(slots[..i]);
    assert slots[..i + 1][..i] == slots[..i] && slots[..i + 1][i] == slots[i];
    MappedAt(slots, objects, i);
    NotBefore(slots, objects, i);
    SettleOne(objects, order, id);
    forall w, m ensures Members(objects, order + [id], w, m)
      == Members(objects, order, w, m) + if (if w then objects[id].watcher else objects[id].marker)
        && objects[id].move == m then [id] else []
    {
      MembersOne(objects, order, id, w, m);
    }
  }

  lemma {:induction false} WholeList(list: seq<Pair>, kept: seq<Pair>)
    ensures list[..|list|] == list && kept + list[|list|..] == kept
  {
  }

  /** What the rules say about the next pair of a flush. */
  lemma {:induction false} FlushOne(s: Space, n: nat)
    requires Inv(s) && n < |s.hot|
    ensures var f, p := FlushPairs(s, s.hot[..n]), s.hot[n];
            && p.watcher in f.space.objects && p.marker in f.space.objects && p.watcher != p.marker
            && s.hot[..n + 1][..n] == s.hot[..n] && s.hot[n..] == [p] + s.hot[n + 1..]
  {
    FlushMeaning(s, n);
    EndsAlive(FlushPairs(s, s.hot[..n]).space.objects, FlushPairs(s, s.hot[..n]).kept, s.hot[n], s.hot[n..]);
    assert PairOk(s.objects, s.hot[n]);
  }

  /** After an early end nothing more is read. */
  lemma {:induction false} ScanStops(mode: string, i: nat)
    requires i <= |mode| && (Scan(mode[..i]).drop || i == |mode|)
    ensures Scan(mode) == Scan(mode[..i])
    decreases |mode| - i
  {
    if i < |mode| {
      assert mode[..i + 1][..i] == mode[..i];
      ScanStops(mode, i + 1);
    } else {
      assert mode[..i] == mode;
    }
  }
}
