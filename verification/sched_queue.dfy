/** The message queue of a service, a ring buffer that grows, and the global
    list of queues, linked through the queues themselves. */
module SchedQueue {
  import opened Arithmetic
  import opened Basics
  import opened SchedSystem

  const DEFAULT_QUEUE_SIZE := 64
  const MQ_OVERLOAD := 1024

  /** The index `i` places after `head` in a ring of `cap` places. */
  function Slot(head: nat, i: nat, cap: nat): nat
    requires head < cap && i < cap
  {
    if head + i < cap then head + i else head + i - cap
  }

  /** The `n` messages that a ring holds from `head` on. */
  function Ring(ring: seq<Message>, head: nat, n: nat): (r: seq<Message>)
    requires head < |ring| && n <= |ring|
    ensures |r| == n && forall i :: 0 <= i < n ==> r[i] == ring[Slot(head, i, |ring|)]
  {
    seq(n, i requires 0 <= i < n => ring[Slot(head, i, |ring|)])
  }

  lemma {:induction false} RingTake(ring: seq<Message>, head: nat, n: nat)
    requires head < |ring| && 0 < n <= |ring|
    ensures Ring(ring, head, n) == [ring[head]] + Ring(ring, if head + 1 < |ring| then head + 1 else 0, n - 1)
  {
  }

  lemma {:induction false} RingPut(ring: seq<Message>, head: nat, n: nat, m: Message)
    requires head < |ring| && n < |ring|
    ensures Ring(ring[Slot(head, n, |ring|) := m], head, n + 1) == Ring(ring, head, n) + [m]
  {
  }

  /** The warning threshold after a look at `length` waiting messages. */
  function Raised(threshold: nat, length: nat): (t: nat)
    requires threshold > 0
    ensures t >= threshold && t >= length && (length <= threshold ==> t == threshold)
    ensures length > threshold ==> t < 2 * length
    decreases if length > threshold then length - threshold else 0
  {
    if length > threshold then Raised(threshold * 2, length) else threshold
  }

  class MessageQueue {
    const handle: Handle
    var cap: nat
    var head: nat
    var tail: nat
    var release: bool
    var inGlobal: bool
    var overload: nat
    var overloadThreshold: nat
    var queue: array<Message>
    var next: MessageQueue?

    ghost predicate Valid()
      reads `cap, `head, `tail, `queue, `overloadThreshold
    {
      && queue.Length == cap > 0 && head < cap && tail < cap
      && overloadThreshold > 0
    }

    function Length(): (n: nat)
      requires Valid()
      reads `cap, `head, `tail, `queue, `overloadThreshold
      ensures n < cap
    {
      if head <= tail then tail - head else tail + cap - head
    }

    ghost function Messages(): (r: seq<Message>)
      requires Valid()
      reads `cap, `head, `tail, `queue, `overloadThreshold, queue
      ensures |r| == Length()
    {
      Ring(queue[..], head, Length())
    }

    /** The queue as the scheduler sees it. */
    ghost function View(): Queue
      requires Valid()
      reads `cap, `head, `tail, `queue, `overloadThreshold, `inGlobal, `release, queue
    {
      Queue(inGlobal, release, Messages())
    }

    constructor (h: Handle)
      ensures Valid() && View() == Queue(true, false, []) && handle == h && next == null && fresh(queue)
    {
      handle := h;
      cap := DEFAULT_QUEUE_SIZE;
      head, tail := 0, 0;
      inGlobal, release := true, false;
      overload, overloadThreshold := 0, MQ_OVERLOAD;
      queue := new Message[DEFAULT_QUEUE_SIZE](_ => Message(0, 0, false));
      next := null;
    }

    /** Notes an overload, and raises the threshold so that it is noted once. */
    method Watch(length: nat)
      requires overloadThreshold > 0
      modifies `overload, `overloadThreshold
      ensures overloadThreshold == Raised(old(overloadThreshold), length)
      ensures overload == if length > old(overloadThreshold) then length else old(overload)
    {
      while length > overloadThreshold
        invariant overloadThreshold > 0
        invariant Raised(overloadThreshold, length) == Raised(old(overloadThreshold), length)
        invariant overload == if overloadThreshold > old(overloadThreshold) then length else old(overload)
        invariant overloadThreshold >= old(overloadThreshold)
        invariant overloadThreshold > old(overloadThreshold) ==> length > old(overloadThreshold)
        decreases length - overloadThreshold
      {
        overload := length;
        overloadThreshold := overloadThreshold * 2;
      }
    }

    /** The oldest message, and how many are left. */
    method Take() returns (message: Message, length: nat)
      requires Valid() && head != tail
      modifies `head
      ensures Valid() && length == Length() == |Messages()| && old(Messages()) == [message] + Messages()
    {
      RingTake(queue[..], head, Length());
      message := queue[head];
      head := head + 1;
      if head >= cap {
        head := 0;
      }
      var left: int := tail - head;
      if left < 0 {
        left := left + cap;
      }
      length := left;
      assert old(Messages()) == [queue[old(head)]] + Messages();
    }

    method Pop() returns (message: Option<Message>)
      requires Valid()
      modifies `head, `inGlobal, `overload, `overloadThreshold
      ensures Valid()
      ensures if old(Messages()) == [] then
                message == None && View() == old(View()).(inGlobal := false) && overloadThreshold == MQ_OVERLOAD
              else
                && message == Some(old(Messages())[0])
                && View() == old(View()).(messages := old(Messages())[1..])
                && overloadThreshold == Raised(old(overloadThreshold), |Messages()|)
                && overload == if |Messages()| > old(overloadThreshold) then |Messages()| else old(overload)
    {
      if head != tail {
        var m, length := Take();
        message := Some(m);
        Watch(length);
      } else {
        overloadThreshold := MQ_OVERLOAD;
        inGlobal := false;
        message := None;
        assert Messages() == [];
      }
    }

    /** Doubles a full ring; `head == tail` means full here. */
    method Expand(ghost all: seq<Message>)
      requires Valid() && head == tail && all == Ring(queue[..], head, cap)
      modifies `cap, `head, `tail, `queue
      ensures Valid() && Messages() == all && fresh(queue)
    {
      var newQueue := new Message[cap * 2](_ => Message(0, 0, false));
      for i := 0 to cap
        invariant forall k :: 0 <= k < i ==> newQueue[k] == all[k]
        invariant Valid() && head == old(head) && all == Ring(queue[..], head, cap)
      {
        WrapsOnce(head + i, cap);
        newQueue[i] := queue[(head + i) % cap];
      }
      head := 0;
      tail := cap;
      cap := cap * 2;
      queue := newQueue;
    }

    /** Puts a message into the ring. */
    method Put(message: Message)
      requires Valid()
      modifies `cap, `head, `tail, `queue, queue
      ensures Valid() && Messages() == old(Messages()) + [message]
      ensures queue == old(queue) || fresh(queue)
    {
      ghost var before, n := Messages(), Length();
      RingPut(queue[..], head, n, message);
      queue[tail] := message;
      assert queue[..] == old(queue[..])[Slot(head, n, cap) := message];
      tail := tail + 1;
      if tail >= cap {
        tail := 0;
      }
      assert Ring(queue[..], head, n + 1) == before + [message];
      if head == tail {
        assert n + 1 == cap;
        Expand(before + [message]);
      }
    }

    /** Adds a message; an unmarked queue is marked and joins the global list. */
    method Push(message: Message, global: GlobalQueue)
      requires Valid() && global.Valid()
      requires !inGlobal ==> this !in global.contents && next == null
      modifies `cap, `head, `tail, `queue, `inGlobal, queue, global, global.contents`next
      ensures Valid() && global.Valid()
      ensures View() == old(View()).(inGlobal := true, messages := old(Messages()) + [message])
      ensures global.contents == if old(inGlobal) then old(global.contents) else old(global.contents) + [this]
    {
      Put(message);
      if !inGlobal {
        inGlobal := true;
        global.Push(this);
      }
    }

    /** The service is gone; a queue that is not marked joins the global list. */
    method MarkRelease(global: GlobalQueue)
      requires Valid() && global.Valid() && !release
      requires !inGlobal ==> this !in global.contents && next == null
      modifies `release, global, global.contents`next
      ensures Valid() && global.Valid() && View() == old(View()).(release := true)
      ensures global.contents == if inGlobal then old(global.contents) else old(global.contents) + [this]
    {
      release := true;
      if !inGlobal {
        global.Push(this);
      }
    }
  }

  class GlobalQueue {
    var head: MessageQueue?
    var tail: MessageQueue?
    ghost var contents: seq<MessageQueue>

    /** The list from `head` to `tail`, linked by `next`; nothing is linked twice. */
    ghost predicate Valid()
      reads this, contents
    {
      && (if contents == [] then head == null && tail == null
          else head == contents[0] && tail == contents[|contents| - 1])
      && (forall i :: 0 <= i < |contents| - 1 ==> contents[i].next == contents[i + 1])
      && (contents != [] ==> contents[|contents| - 1].next == null)
      && (forall i, j :: 0 <= i < j < |contents| ==> contents[i] != contents[j])
    }

    constructor ()
      ensures Valid() && contents == []
    {
      head, tail := null, null;
      contents := [];
    }

    method Push(q: MessageQueue)
      requires Valid() && q.next == null && q !in contents
      modifies this, contents`next
      ensures Valid() && contents == old(contents) + [q]
    {
      if tail != null {
        tail.next := q;
        tail := q;
      } else {
        head, tail := q, q;
      }
      contents := contents + [q];
    }

    method Pop() returns (q: MessageQueue?)
      requires Valid()
      modifies this, contents`next
      ensures Valid()
      ensures if old(contents) == [] then q == null && contents == []
              else q == old(contents)[0] && contents == old(contents)[1..] && q.next == null
    {
      q := head;
      if q != null {
        assert q.next == if |contents| > 1 then contents[1] else null;
        head := q.next;
        if head == null {
          assert q == tail;
          tail := null;
        }
        q.next := null;
        contents := contents[1..];
      }
    }
  }
}
