/** The outbox ring of the train controller, updated in place, against the bounded sequence that the
    protocol model uses. */
module Outbox {
  import opened TrainToLocal

  class Ring {
    const items: array<Item>
    var head: nat
    var count: nat
    var dropped: nat

    ghost predicate Valid()
      reads this
    {
      items.Length == OUTBOX_CAPACITY && head < OUTBOX_CAPACITY && count <= OUTBOX_CAPACITY
    }

    /** The queued items, oldest first. */
    ghost function Queued(): (q: seq<Item>)
      requires Valid()
      reads this, items
      ensures |q| == count
    {
      seq(count, k requires 0 <= k < count reads this, items requires Valid() =>
        items[(head + k) % OUTBOX_CAPACITY])
    }

    constructor ()
      ensures Valid() && fresh(items) && Queued() == [] && dropped == 0
    {
      items := new Item[OUTBOX_CAPACITY](_ => Alert(0));
      head, count, dropped := 0, 0, 0;
    }

    method Add(item: Item)
      requires Valid()
      modifies this`count, this`dropped, items
      ensures Valid()
      ensures Queued() == Push(old(Queued()), item)
      ensures |old(Queued())| < 64 ==> Queued() == old(Queued()) + [item] && dropped == old(dropped)
      ensures |old(Queued())| >= 64 ==> Queued() == old(Queued()) && dropped == old(dropped) + 1
    {
      if count < OUTBOX_CAPACITY {
        var slot := (head + count) % OUTBOX_CAPACITY;
        items[slot] := item;
        count := count + 1;
        assert Queued()[..old(count)] == old(Queued());
        assert Queued() == Queued()[..old(count)] + [item];
      } else {
        dropped := dropped + 1;
      }
    }

    /** The sender waits while the ring is empty. */
    method Take() returns (item: Item)
      requires Valid() && Queued() != []
      modifies this`head, this`count
      ensures Valid() && dropped == old(dropped)
      ensures old(Queued()) == [item] + Queued()
    {
      item := items[head];
      head := (head + 1) % OUTBOX_CAPACITY;
      count := count - 1;
      assert old(Queued())[0] == item;
      assert old(Queued())[1..] == Queued();
    }

    /** Queues both items of an announcement for the intersections beside a crossing, as far as there is room. */
    method QueueRailway(cx: nat, preempt: bool, eta: int)
      requires Valid()
      modifies this`count, this`dropped, items
      ensures Valid()
      ensures Queued() == Push(Push(old(Queued()), Pair(cx, preempt, eta)[0]), Pair(cx, preempt, eta)[1])
      ensures |Queued()| + dropped == |old(Queued())| + old(dropped) + 2
      ensures |old(Queued())| <= 62 ==>
                Queued() == old(Queued()) + [Railway(2 * cx, cx, preempt, eta), Railway(2 * cx + 1, cx, preempt, eta)]
      ensures |old(Queued())| == 63 ==> Queued() == old(Queued()) + [Railway(2 * cx, cx, preempt, eta)]
      ensures |old(Queued())| >= 64 ==> Queued() == old(Queued())
    {
      var k := 0;
      while k < 2
        invariant 0 <= k <= 2 && Valid() && |Queued()| + dropped == |old(Queued())| + old(dropped) + k
        invariant Queued() == match k
                              case 0 => old(Queued())
                              case 1 => Push(old(Queued()), Railway(2 * cx, cx, preempt, eta))
                              case _ => Push(Push(old(Queued()), Railway(2 * cx, cx, preempt, eta)),
                                             Railway(2 * cx + 1, cx, preempt, eta))
      {
        Add(Railway(2 * cx + k, cx, preempt, eta));
        k := k + 1;
      }
    }
  }
}
