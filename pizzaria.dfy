/** The pizzeria's shared order queue: waiters (producers) put order numbers
    into a fixed array used as a ring, cooks (consumers) take them out in
    arrival order and forward each one to the delivery process. The two
    counting semaphores become two counters; each waiter step and each cook
    step is one atomic method whose precondition is the semaphore wait. */
module Pizzaria {
  import opened OrderRing

  /** Order number a waiter makes up from one result `randValue` of `rand()`,
      which is never negative: `rand() % 100 + 1`. */
  function GenerateOrderId(randValue: int): (id: int)
    requires randValue >= 0
    ensures 1 <= id <= 100
    ensures randValue < 100 ==> id == randValue + 1
  {
    randValue % 100 + 1
  }

  /** Every order number in [1, 100] can be generated. */
  lemma OrderIdReachable(id: int)
    requires 1 <= id <= 100
    ensures GenerateOrderId(id - 1) == id
  {
  }

  class OrderQueue {
    /** The ring of order slots (fila_pedidos). */
    var slots: array<int>
    /** Slot the next waiter writes (indice_entrada). */
    var writeIndex: nat
    /** Slot the next cook reads (indice_saida). */
    var readIndex: nat
    /** Value of the free-slot semaphore (sem_vagas). */
    var freeSlots: nat
    /** Value of the pending-order semaphore (sem_pedidos). */
    var pendingOrders: nat

    /** Every order ever put into the queue, in insertion order. */
    ghost var Inserted: seq<int>
    /** Every order ever taken out of the queue, in removal order. */
    ghost var Taken: seq<int>
    /** Orders taken by a cook and not yet written to the delivery pipe. */
    ghost var InFlight: multiset<int>
    /** Orders written to the delivery pipe, in the order they were written. */
    ghost var Delivered: seq<int>

    /** The orders waiting in the queue, oldest first. */
    ghost function Contents(): (c: seq<int>)
      reads this, slots
      requires slots.Length == Capacity && readIndex < Capacity && pendingOrders <= Capacity
    {
      Window(slots[..], readIndex, pendingOrders)
    }

    /** The queue's invariant: indices and counters agree, the queue holds
        exactly the orders inserted and not yet taken (in order), and every
        taken order is either delivered or still held by a cook. */
    ghost predicate Valid()
      reads this, slots
    {
      slots.Length == Capacity &&
      Consistent(writeIndex, readIndex, freeSlots, pendingOrders) &&
      Inserted == Taken + Contents() &&
      multiset(Taken) == multiset(Delivered) + InFlight
    }

    /** Program start: a zeroed global array, both indices 0, every slot
        free and no order pending. */
    constructor ()
      ensures Valid() && fresh(slots)
      ensures slots[..] == seq(Capacity, _ => 0)
      ensures writeIndex == 0 && readIndex == 0
      ensures freeSlots == Capacity && pendingOrders == 0
      ensures Contents() == []
      ensures Inserted == [] && Taken == [] && InFlight == multiset{} && Delivered == []
    {
      slots := new int[Capacity](_ => 0);
      writeIndex, readIndex := 0, 0;
      freeSlots, pendingOrders := Capacity, 0;
      Inserted, Taken, InFlight, Delivered := [], [], multiset{}, [];
    }

    /** Waiter's critical section: wait for a free slot, write the order at the
        write index, advance the write index, announce one pending order. */
    method Insert(order: int)
      requires Valid() && freeSlots > 0
      modifies this, slots
      ensures Valid() && slots == old(slots)
      ensures slots[old(writeIndex)] == order
      ensures forall j :: 0 <= j < Capacity && j != old(writeIndex) ==> slots[j] == old(slots[j])
      ensures writeIndex == Advance(old(writeIndex)) && readIndex == old(readIndex)
      ensures freeSlots == old(freeSlots) - 1 && pendingOrders == old(pendingOrders) + 1
      ensures Contents() == old(Contents()) + [order]
      ensures Inserted == old(Inserted) + [order]
      ensures Taken == old(Taken) && InFlight == old(InFlight) && Delivered == old(Delivered)
    {
      ghost var queued := Contents();
      ghost var written := slots[..][writeIndex := order];
      WindowPush(slots[..], readIndex, pendingOrders, order);
      InsertKeepsConsistent(writeIndex, readIndex, freeSlots, pendingOrders);
      slots[writeIndex] := order;
      assert slots[..] == written;
      writeIndex := Advance(writeIndex);
      freeSlots, pendingOrders := freeSlots - 1, pendingOrders + 1;
      assert Contents() == queued + [order];
      Inserted := Inserted + [order];
      assert Inserted == Taken + (queued + [order]);
    }

    /** Cook's critical section: wait for a pending order, read the slot at the
        read index, advance the read index, announce one free slot. The array
        is not written; the order is now held by the cook. */
    method Remove() returns (order: int)
      requires Valid() && pendingOrders > 0
      modifies this
      ensures Valid() && slots == old(slots) && slots[..] == old(slots[..])
      ensures order == old(slots[readIndex])
      ensures order == old(Contents())[0] && Contents() == old(Contents())[1..]
      ensures readIndex == Advance(old(readIndex)) && writeIndex == old(writeIndex)
      ensures pendingOrders == old(pendingOrders) - 1 && freeSlots == old(freeSlots) + 1
      ensures Taken == old(Taken) + [order] && InFlight == old(InFlight) + multiset{order}
      ensures order == Inserted[|old(Taken)|]
      ensures Inserted == old(Inserted) && Delivered == old(Delivered)
    {
      ghost var queued := Contents();
      WindowPop(slots[..], readIndex, pendingOrders);
      RemoveKeepsConsistent(writeIndex, readIndex, freeSlots, pendingOrders);
      order := slots[readIndex];
      assert Inserted == (Taken + [order]) + queued[1..] by {
        assert queued == [order] + queued[1..];
      }
      readIndex := Advance(readIndex);
      pendingOrders, freeSlots := pendingOrders - 1, freeSlots + 1;
      Taken := Taken + [order];
      InFlight := InFlight + multiset{order};
      assert Contents() == queued[1..];
    }

    /** A cook writes an order it holds to the delivery pipe. The queue itself
        (slots, indices, counters) is untouched: forwarding holds no slot. */
    method Forward(order: int)
      requires Valid() && order in InFlight
      modifies this
      ensures Valid()
      ensures Delivered == old(Delivered) + [order]
      ensures InFlight == old(InFlight) - multiset{order}
      ensures unchanged(this`slots, this`writeIndex, this`readIndex, this`freeSlots, this`pendingOrders)
      ensures Inserted == old(Inserted) && Taken == old(Taken)
    {
      Delivered := Delivered + [order];
      InFlight := InFlight - multiset{order};
    }

    /** One pass of a cook's loop with no other cook acting between the take
        and the pipe write: take the oldest order, release its slot, then
        forward it. When no cook held an order before, what has been delivered
        is exactly what has been taken, in the same order. */
    method CookStep() returns (order: int)
      requires Valid() && pendingOrders > 0
      modifies this
      ensures Valid() && slots == old(slots) && slots[..] == old(slots[..])
      ensures order == old(Contents())[0] && Contents() == old(Contents())[1..]
      ensures readIndex == Advance(old(readIndex)) && writeIndex == old(writeIndex)
      ensures pendingOrders == old(pendingOrders) - 1 && freeSlots == old(freeSlots) + 1
      ensures Taken == old(Taken) + [order] && Delivered == old(Delivered) + [order]
      ensures order == Inserted[|old(Taken)|]
      ensures InFlight == old(InFlight) && Inserted == old(Inserted)
      ensures old(Delivered) == old(Taken) ==> Delivered == Taken
    {
      order := Remove();
      Forward(order);
    }

    /** One pass of a waiter's loop: make up an order number from a `rand()`
        result and insert it. */
    method WaiterStep(randValue: int) returns (order: int)
      requires Valid() && freeSlots > 0 && randValue >= 0
      modifies this, slots
      ensures Valid() && slots == old(slots)
      ensures order == GenerateOrderId(randValue) && 1 <= order <= 100
      ensures slots[old(writeIndex)] == order
      ensures forall j :: 0 <= j < Capacity && j != old(writeIndex) ==> slots[j] == old(slots[j])
      ensures writeIndex == Advance(old(writeIndex)) && readIndex == old(readIndex)
      ensures freeSlots == old(freeSlots) - 1 && pendingOrders == old(pendingOrders) + 1
      ensures Contents() == old(Contents()) + [order]
      ensures Inserted == old(Inserted) + [order]
      ensures Taken == old(Taken) && InFlight == old(InFlight) && Delivered == old(Delivered)
    {
      order := GenerateOrderId(randValue);
      Insert(order);
    }
  }

  /** Capacity safety and conservation of orders: in every valid state the
      counts stay within [0, Capacity], the queue holds exactly its pending
      orders, and each inserted order is, exactly once, either still queued,
      held by a cook, or delivered. */
  lemma NoLossNoDuplication(q: OrderQueue)
    requires q.Valid()
    ensures q.pendingOrders <= Capacity && q.freeSlots <= Capacity
    ensures |q.Contents()| == q.pendingOrders
    ensures multiset(q.Inserted) == multiset(q.Delivered) + q.InFlight + multiset(q.Contents())
  {
  }
}
