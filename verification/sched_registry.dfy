/** The registry of services in skynet_handle.c: a table whose size is a power of two,
    and the counter that gives new handles. */
module SchedRegistry {
  import opened Arithmetic
  import opened Basics

  const HANDLE_MASK := 0xffffff
  const DEFAULT_SLOT_SIZE := 4

  /** A service in a slot, with its handle without the harbor's bits. */
  datatype Entry = Entry(handle: nat, context: nat)

  /** The `i`-th handle that a scan tries, from `first` on: 0 is left out at the wrap. */
  function Candidate(first: nat, i: nat): (h: nat)
    requires 1 <= first <= HANDLE_MASK + 1
    ensures 1 <= h <= HANDLE_MASK
  {
    if i == 0 then (if first > HANDLE_MASK then 1 else first)
    else if Candidate(first, i - 1) == HANDLE_MASK then 1 else Candidate(first, i - 1) + 1
  }

  /** Each service sits in the slot of its handle's remainder. */
  ghost predicate Placed(slot: seq<Option<Entry>>) {
    forall i :: 0 <= i < |slot| && slot[i].Some? ==>
      1 <= slot[i].value.handle <= HANDLE_MASK && slot[i].value.handle % |slot| == i
  }

  /** The service of a handle. */
  ghost predicate Registered(slot: seq<Option<Entry>>, h: nat, c: nat) { Some(Entry(h, c)) in slot }

  ghost predicate Full(slot: seq<Option<Entry>>) { forall i :: 0 <= i < |slot| ==> slot[i].Some? }

  /** All slots are taken but the first, and the scan of all slots passes the wrap. */
  ghost predicate MissesFirst(slot: seq<Option<Entry>>, first: nat) {
    slot != [] && slot[0].None? && (forall i :: 0 < i < |slot| ==> slot[i].Some?) && PassesWrap(first, |slot|)
  }

  lemma {:induction false} CandidateIs(first: nat, i: nat)
    requires 1 <= first <= HANDLE_MASK + 1 && i <= HANDLE_MASK
    ensures var h, n := Candidate(first, i), HANDLE_MASK + 1 - first;
            if i < n then h == first + i else if i - n < HANDLE_MASK then h == i - n + 1 else h == 1
  {
    if i > 0 { CandidateIs(first, i - 1); }
  }

  lemma {:induction false} TopIsPower()
    ensures PowerOfTwo(HANDLE_MASK + 1)
  {
    SixteenTimes(1);
    SixteenTimes(0x10);
    SixteenTimes(0x100);
    SixteenTimes(0x1000);
    SixteenTimes(0x10000);
    SixteenTimes(0x100000);
  }

  ghost predicate PassesWrap(first: nat, size: nat) {
    size > HANDLE_MASK || HANDLE_MASK + 1 - size < first <= HANDLE_MASK
  }

  /** A scan of `size` handles tries each slot, but for the first one when it passes the wrap. */
  lemma {:induction false} TriesSlot(first: nat, size: nat, s: nat) returns (i: nat)
    requires 1 <= first <= HANDLE_MASK + 1 && PowerOfTwo(size) && s < size <= HANDLE_MASK + 1
    requires s == 0 ==> !PassesWrap(first, size)
    ensures i < size && Candidate(first, i) % size == s
  {
    var n := HANDLE_MASK + 1 - first;
    TopIsPower();
    Divides(size, HANDLE_MASK + 1);
    var q := (HANDLE_MASK + 1) / size;
    assert q * size == HANDLE_MASK + 1;
    if n >= size {
      i := (s + size - first % size) % size;
      CandidateIs(first, i);
      Consecutive(first, size, s);
    } else if s >= size - n && n > 0 {
      i := s - (size - n);
      CandidateIs(first, i);
      RemainderIs(first + i, size, q - 1, s);
    } else {
      i := if s == 0 then size - 1 else n + s - 1;
      CandidateIs(first, i);
      RemainderIs(if s == 0 then size else s, size, if s == 0 then 1 else 0, s);
    }
  }

  lemma {:induction false} Consecutive(first: nat, size: nat, s: nat)
    requires s < size
    ensures (first + (s + size - first % size) % size) % size == s
  {
    var q, r := first / size, first % size;
    assert first == q * size + r;
    WrapsOnce(s + size - r, size);
    var i := (s + size - r) % size;
    RemainderIs(first + i, size, if s < r then q + 1 else q, s);
  }

  /** It never tries the first slot when it passes the wrap. */
  lemma {:induction false} MissesSlot(first: nat, size: nat, i: nat)
    requires 1 <= first <= HANDLE_MASK + 1 && PowerOfTwo(size) && i < size <= HANDLE_MASK + 1 && PassesWrap(first, size)
    ensures Candidate(first, i) % size != 0
  {
    var n := HANDLE_MASK + 1 - first;
    TopIsPower();
    Divides(size, HANDLE_MASK + 1);
    var q := (HANDLE_MASK + 1) / size;
    assert q * size == HANDLE_MASK + 1;
    CandidateIs(first, i);
    if i < n {
      RemainderIs(first + i, size, q - 1, size - n + i);
    } else {
      RemainderIs(Candidate(first, i), size, 0, Candidate(first, i));
    }
  }

  class HandleStorage {
    var slot: array<Option<Entry>>
    var handleIndex: nat

    ghost predicate Valid()
      reads this, slot
    {
      && PowerOfTwo(slot.Length) && 4 <= slot.Length <= HANDLE_MASK + 1 && 1 <= handleIndex <= HANDLE_MASK + 1
      && Placed(slot[..])
    }

    /** skynet_handle_init */
    constructor ()
      ensures Valid() && fresh(slot) && forall h, c :: !Registered(slot[..], h, c)
    {
      slot := new Option<Entry>[DEFAULT_SLOT_SIZE](_ => None);
      handleIndex := 1;
      assert PowerOfTwo(1) && PowerOfTwo(2);
    }

    /** The scan of skynet_handle_register: the service gets the first handle whose slot is empty. */
    method Scan(context: nat) returns (r: Option<nat>)
      requires Valid()
      modifies slot, `handleIndex
      ensures Valid()
      ensures r.None? ==> slot[..] == old(slot[..]) && handleIndex == old(handleIndex)
      ensures r.None? <==> old(Full(slot[..]) || MissesFirst(slot[..], handleIndex))
      ensures r.Some? ==> Added(old(slot[..]), slot[..], r.value, context)
    {
      ghost var was := slot[..];
      var first := handleIndex;
      var handle := first;
      for i := 0 to slot.Length
        invariant Valid() && slot[..] == was && handleIndex == first && 1 <= handle <= HANDLE_MASK + 1
        invariant Candidate(first, i) == if handle > HANDLE_MASK then 1 else handle
        invariant forall j :: 0 <= j < i ==> slot[Candidate(first, j) % slot.Length].Some?
      {
        hide PowerOfTwo, Full, MissesFirst;
        if handle > HANDLE_MASK { handle := 1; }
        var hash := handle % slot.Length;
        if slot[hash].None? {
          slot[hash] := Some(Entry(handle, context));
          handleIndex := handle + 1;
          Adding(was, slot[..], handle, context);
          FoundOne(was, first, i);
          return Some(handle);
        }
        handle := handle + 1;
      }
      FoundNone(slot[..], first);
      return None;
    }

    /** The part of skynet_handle_register that doubles the table; it reads every slot, and
        stops at an empty one. */
    method Rehash() returns (ok: bool)
      requires Valid() && 2 * slot.Length - 1 <= HANDLE_MASK
      modifies `slot
      ensures Valid() && (ok <==> old(Full(slot[..])))
      ensures !ok ==> slot == old(slot)
      ensures ok ==> fresh(slot) && slot.Length == 2 * old(slot.Length)
      ensures ok ==> Widened(old(slot[..]), slot[..], old(slot.Length))
    {
      var size := slot.Length;
      var wider := new Option<Entry>[2 * size](_ => None);
      assert PowerOfTwo(2 * size);
      for i := 0 to size
        invariant wider.Length == 2 * size && fresh(wider) && Valid() && slot == old(slot) && slot[..] == old(slot[..])
        invariant Widened(slot[..], wider[..], i)
        invariant forall j :: 0 <= j < i ==> slot[j].Some?
      {
        hide PowerOfTwo, Widened;
        if slot[i].None? { return false; }
        var hash := slot[i].value.handle % (2 * size);
        WidenOne(slot[..], wider[..], i);
        assert wider[hash].None?;
        ghost var was := wider[..];
        wider[hash] := slot[i];
        assert wider[..] == was[hash := slot[i]];
      }
      slot := wider;
      return true;
    }

    /** skynet_handle_register.  `None` is a crash: the assertion on the table's size, or the
        use of an empty slot as a service. */
    method Register(context: nat) returns (r: Option<nat>)
      requires Valid()
      modifies this, slot
      ensures r.None? <==> old(MissesFirst(slot[..], handleIndex))
      ensures r.Some? ==> Valid() && (slot == old(slot) || fresh(slot))
      ensures r.Some? ==> Added(old(slot[..]), slot[..], r.value, context)
    {
      hide PowerOfTwo, MissesFirst, Placed, Full;
      r := Scan(context);
      if r.Some? { return; }
      NotBoth(slot[..], handleIndex);
      if slot.Length * 2 - 1 > HANDLE_MASK {
        TopHasRoom(slot[..]);
        return None;
      }
      var ok := Rehash();
      if !ok { return None; }
      ghost var wider := slot[..];
      WiderHasRoom(old(slot[..]), wider, handleIndex);
      r := Scan(context);
      WiderAdded(old(slot[..]), wider, slot[..], r.value, context);
    }

    /** skynet_handle_retire */
    method Retire(h: nat) returns (found: bool)
      requires Valid()
      modifies slot
      ensures Valid() && (found <==> exists c :: old(Registered(slot[..], h, c)))
      ensures forall g, c :: Registered(slot[..], g, c) <==> g != h && old(Registered(slot[..], g, c))
    {
      ghost var was := slot[..];
      var hash := h % slot.Length;
      AtItsPlace(was, h);
      found := slot[hash].Some? && slot[hash].value.handle == h;
      if found {
        slot[hash] := None;
        Removing(was, slot[..], h);
      }
    }

    /** skynet_handle_grab */
    method Grab(h: nat) returns (r: Option<nat>)
      requires Valid()
      ensures forall c: nat :: r == Some(c) <==> Registered(slot[..], h, c)
    {
      AtItsPlace(slot[..], h);
      var e := slot[h % slot.Length];
      return if e.Some? && e.value.handle == h then Some(e.value.context) else None;
    }
  }

  /** One more service is registered, under a handle that nobody had. */
  ghost predicate Added(s: seq<Option<Entry>>, t: seq<Option<Entry>>, h: nat, c: nat) {
    && 1 <= h <= HANDLE_MASK && (forall d :: !Registered(s, h, d))
    && (forall g, d :: Registered(t, g, d) <==> (g == h && d == c) || Registered(s, g, d))
  }

  lemma {:induction false} Adding(s: seq<Option<Entry>>, t: seq<Option<Entry>>, h: nat, c: nat)
    requires Placed(s) && s != [] && s[h % |s|].None? && t == s[h % |s| := Some(Entry(h, c))] && 1 <= h <= HANDLE_MASK
    ensures Placed(t) && Added(s, t, h, c)
  {
    var n := h % |s|;
    assert t[n] == Some(Entry(h, c));
    forall g, d ensures Registered(t, g, d) <==> (g == h && d == c) || Registered(s, g, d) {
      if Registered(s, g, d) {
        var i :| 0 <= i < |s| && s[i] == Some(Entry(g, d));
        assert t[i] == s[i];
      }
    }
  }

  lemma {:induction false} FoundOne(slot: seq<Option<Entry>>, first: nat, i: nat)
    requires 1 <= first <= HANDLE_MASK + 1 && PowerOfTwo(|slot|) && i < |slot| <= HANDLE_MASK + 1
    requires slot[Candidate(first, i) % |slot|].None?
    ensures !Full(slot) && !MissesFirst(slot, first)
  {
    if PassesWrap(first, |slot|) { MissesSlot(first, |slot|, i); }
  }

  lemma {:induction false} FoundNone(slot: seq<Option<Entry>>, first: nat)
    requires 1 <= first <= HANDLE_MASK + 1 && PowerOfTwo(|slot|) && |slot| <= HANDLE_MASK + 1
    requires forall j :: 0 <= j < |slot| ==> slot[Candidate(first, j) % |slot|].Some?
    ensures Full(slot) || MissesFirst(slot, first)
  {
    forall s | 0 <= s < |slot| && (s == 0 ==> !PassesWrap(first, |slot|)) ensures slot[s].Some? {
      var i := TriesSlot(first, |slot|, s);
    }
  }

  /** The services of the first `n` slots, in twice as many slots. */
  ghost predicate Widened(s: seq<Option<Entry>>, t: seq<Option<Entry>>, n: nat) {
    && |t| == 2 * |s| && Placed(t)
    && (forall i :: 0 <= i < |s| ==> Moved(s, t, i, n))
  }

  /** Slot `i` has gone to one of its two places, when it is among the first `n`. */
  ghost predicate Moved(s: seq<Option<Entry>>, t: seq<Option<Entry>>, i: nat, n: nat)
    requires i < |s| && |t| == 2 * |s|
  {
    var low, high := t[i], t[i + |s|];
    if i < n then (low == s[i] && high.None?) || (low.None? && high == s[i]) else low.None? && high.None?
  }

  lemma {:induction false} WidenOne(s: seq<Option<Entry>>, t: seq<Option<Entry>>, n: nat)
    requires Placed(s) && Widened(s, t, n) && n < |s| && s[n].Some?
    ensures var k := s[n].value.handle % |t|;
            t[k].None? && Widened(s, t[k := s[n]], n + 1)
  {
    var h := s[n].value.handle;
    var k, t2, m := h % |t|, t[h % |t| := s[n]], n + 1;
    DoubleRemainder(h, |s|);
    assert h % |s| == n && (k == n || k == n + |s|);
    forall i | 0 <= i < |s| ensures Moved(s, t2, i, m) { assert Moved(s, t, i, n); }
    assert Moved(s, t, n, n);
    assert Placed(t2);
  }

  lemma {:induction false} NotBoth(slot: seq<Option<Entry>>, first: nat)
    requires slot != []
    ensures !(Full(slot) && MissesFirst(slot, first))
  {
  }

  /** The greatest table is never full: no service has the handle 0. */
  lemma {:induction false} TopHasRoom(slot: seq<Option<Entry>>)
    requires Placed(slot) && PowerOfTwo(|slot|) && |slot| * 2 - 1 > HANDLE_MASK && |slot| <= HANDLE_MASK + 1
    ensures !Full(slot)
  {
    TopIsPower();
    Divides(|slot|, HANDLE_MASK + 1);
    var q := (HANDLE_MASK + 1) / |slot|;
    assert HANDLE_MASK + 1 == q * |slot|;
    assert q >= 2 ==> q * |slot| >= 2 * |slot|;
    assert q == 1;
    if slot[0].Some? {
      var h := slot[0].value.handle;
      RemainderIs(h, |slot|, 0, h);
    }
  }

  /** A table that was doubled has an empty slot that is not the first. */
  lemma {:induction false} WiderHasRoom(s: seq<Option<Entry>>, t: seq<Option<Entry>>, first: nat)
    requires |s| >= 2 && Widened(s, t, |s|)
    ensures !Full(t) && !MissesFirst(t, first)
  {
    assert Moved(s, t, 1, |s|);
  }

  lemma {:induction false} WidenedSame(s: seq<Option<Entry>>, t: seq<Option<Entry>>, h: nat, c: nat)
    requires Widened(s, t, |s|)
    ensures Registered(t, h, c) <==> Registered(s, h, c)
  {
    if Registered(s, h, c) {
      var i :| 0 <= i < |s| && s[i] == Some(Entry(h, c));
      assert Moved(s, t, i, |s|);
    }
    if Registered(t, h, c) {
      var k :| 0 <= k < |t| && t[k] == Some(Entry(h, c));
      assert Moved(s, t, if k < |s| then k else k - |s|, |s|);
    }
  }

  lemma {:induction false} WiderAdded(s: seq<Option<Entry>>, t: seq<Option<Entry>>, u: seq<Option<Entry>>,
                                      h: nat, c: nat)
    requires Widened(s, t, |s|) && Added(t, u, h, c)
    ensures Added(s, u, h, c)
  {
    hide Widened, Registered;
    forall g, d ensures Registered(t, g, d) <==> Registered(s, g, d) { WidenedSame(s, t, g, d); }
  }

  /** A service is found where its handle says. */
  lemma {:induction false} AtItsPlace(slot: seq<Option<Entry>>, h: nat)
    requires Placed(slot) && slot != []
    ensures forall c :: Registered(slot, h, c) <==> slot[h % |slot|] == Some(Entry(h, c))
  {
  }

  lemma {:induction false} Removing(s: seq<Option<Entry>>, t: seq<Option<Entry>>, h: nat)
    requires Placed(s) && s != [] && s[h % |s|].Some? && s[h % |s|].value.handle == h && t == s[h % |s| := None]
    ensures Placed(t) && forall g, c :: Registered(t, g, c) <==> g != h && Registered(s, g, c)
  {
    forall g, c ensures Registered(t, g, c) <==> g != h && Registered(s, g, c) {
      if Registered(s, g, c) && g != h {
        var i :| 0 <= i < |s| && s[i] == Some(Entry(g, c));
        assert t[i] == s[i];
      }
      if Registered(t, g, c) {
        var i :| 0 <= i < |t| && t[i] == Some(Entry(g, c));
        assert s[i] == t[i];
      }
    }
  }
}
