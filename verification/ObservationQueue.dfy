/** The bounded drop-oldest observation queue with its per-source resync mask. */
module ObservationQueue {
  import opened Common

  datatype Origin = NetlinkOrigin | LldpOrigin

  datatype Item<T> = Item(origin: Origin, payload: T)

  /** The mask is the set of origins whose bit is raised. */
  datatype Queue<T> = Queue(items: seq<Item<T>>, mask: set<Origin>, closed: bool)

  predicate Overflows<T>(q: Queue<T>, capacity: nat) {
    !q.closed && |q.items| >= capacity > 0
  }

  function Pushed<T>(q: Queue<T>, capacity: nat, item: Item<T>): Queue<T> {
    if q.closed then q
    else if Overflows(q, capacity) then
      q.(items := q.items[1..] + [item], mask := q.mask + {q.items[0].origin})
    else q.(items := q.items + [item])
  }

  /** Nothing leaves the queue unnoticed: pushing appends; it discards nothing
      as long as there is room and the oldest item otherwise, and raises the bit
      of that item's origin and no other. A closed queue ignores the push. */
  lemma PushLosesOnlyMarked<T>(q: Queue<T>, capacity: nat, item: Item<T>)
    requires 0 < capacity && |q.items| <= capacity
    ensures var q' := Pushed(q, capacity, item);
            && |q'.items| <= capacity && q'.closed == q.closed
            && (q.closed ==> q' == q)
            && (!q.closed && |q.items| < capacity ==> q'.items == q.items + [item] && q'.mask == q.mask)
            && (!q.closed && |q.items| == capacity ==>
                  [q.items[0]] + q'.items == q.items + [item] && q'.mask == q.mask + {q.items[0].origin})
  {
    var q' := Pushed(q, capacity, item);
    if Overflows(q, capacity) {
      assert q.items == [q.items[0]] + q.items[1..];
    }
  }

  function PushedAll<T>(q: Queue<T>, capacity: nat, xs: seq<Item<T>>): Queue<T> {
    if xs == [] then q else Pushed(PushedAll(q, capacity, xs[..|xs| - 1]), capacity, xs[|xs| - 1])
  }

  ghost function Origins<T>(xs: seq<Item<T>>): set<Origin> {
    set x | x in xs :: x.origin
  }

  function Older<T>(xs: seq<Item<T>>, capacity: nat): nat {
    if |xs| <= capacity then 0 else |xs| - capacity
  }

  /** After any burst into an open queue, the queue holds the newest items, up
      to its capacity, in order, and exactly the origins of the older ones have
      their bit up. */
  lemma {:induction false} BurstKeepsNewest<T>(capacity: nat, xs: seq<Item<T>>)
    requires 0 < capacity
    ensures var q := PushedAll(Queue([], {}, false), capacity, xs);
            && !q.closed && q.items == xs[Older(xs, capacity)..] && q.mask == Origins(xs[..Older(xs, capacity)])
  {
    if xs != [] {
      var front, last := xs[..|xs| - 1], xs[|xs| - 1];
      var q := PushedAll(Queue([], {}, false), capacity, front);
      BurstKeepsNewest(capacity, front);
      PushLosesOnlyMarked(q, capacity, last);
      assert xs == front + [last];
      if |front| >= capacity {
        OldestDropped(capacity, front, last);
      } else {
        assert xs[..0] == front[..0];
      }
    }
  }

  lemma OldestDropped<T>(capacity: nat, front: seq<Item<T>>, last: Item<T>)
    requires 0 < capacity <= |front|
    ensures var n := Older(front, capacity);
            && (front + [last])[n + 1..] == front[n..][1..] + [last]
            && Origins((front + [last])[..n + 1]) == Origins(front[..n]) + {front[n..][0].origin}
  {
    var n := Older(front, capacity);
    assert (front + [last])[..n + 1] == front[..n] + [front[n]];
    OriginsSnoc(front[..n], front[n]);
  }

  lemma OriginsSnoc<T>(xs: seq<Item<T>>, x: Item<T>)
    ensures Origins(xs + [x]) == Origins(xs) + {x.origin}
  {
    assert forall y :: y in xs + [x] <==> y in xs || y == x;
    assert x in xs + [x];
  }

  class BoundedObservationQueue<T> {
    const capacity: nat
    var items: seq<Item<T>>
    var mask: set<Origin>
    var closed: bool

    ghost predicate Valid()
      reads this
    {
      0 < capacity && |items| <= capacity
    }

    ghost function State(): Queue<T>
      reads this
    {
      Queue(items, mask, closed)
    }

    constructor (capacity: nat)
      requires 0 < capacity
      ensures Valid() && this.capacity == capacity && State() == Queue([], {}, false)
    {
      this.capacity := capacity;
      items, mask, closed := [], {}, false;
    }

    /** False exactly when an older item was discarded. */
    method Push(item: Item<T>) returns (kept: bool)
      requires Valid()
      modifies this
      ensures Valid() && State() == Pushed(old(State()), capacity, item)
      ensures kept <==> !Overflows(old(State()), capacity)
    {
      if closed {
        return true;
      }
      kept := true;
      if |items| == capacity {
        mask := mask + {items[0].origin};
        items := items[1..];
        kept := false;
      }
      items := items + [item];
    }

    method TryPop() returns (r: Option<Item<T>>)
      requires Valid()
      modifies this`items
      ensures Valid()
      ensures old(items) == [] ==> r == None && items == []
      ensures old(items) != [] ==> r == Some(old(items)[0]) && items == old(items)[1..]
    {
      if items == [] {
        return None;
      }
      r := Some(items[0]);
      items := items[1..];
    }

    /** Unlike an overflow this raises no bit. */
    method DiscardAll()
      requires Valid()
      modifies this`items
      ensures Valid() && items == []
    {
      items := [];
    }

    method TakeResyncMask() returns (taken: set<Origin>)
      modifies this`mask
      ensures taken == old(mask) && mask == {}
    {
      taken := mask;
      mask := {};
    }

    method RaiseResync(origin: Origin)
      modifies this`mask
      ensures mask == old(mask) + {origin}
    {
      mask := mask + {origin};
    }

    method Close()
      modifies this`closed
      ensures closed
    {
      closed := true;
    }

    method Reopen()
      requires Valid()
      modifies this
      ensures Valid() && State() == Queue([], {}, false)
    {
      items, mask, closed := [], {}, false;
    }
  }
}
