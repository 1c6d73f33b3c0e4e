/** Index arithmetic of the pizzeria's circular order queue: the capacity,
    the modular advance of the write and read indices, the agreement between
    the two indices and the two semaphore counts, and the logical contents
    of the ring (the occupied slots read from the read index onwards). */
module OrderRing {

  /** Capacity of the order queue (TAMANHO_FILA_PEDIDOS). */
  const Capacity: nat := 5

  /** Index of the slot that follows slot `i`, wrapping to 0 after the last. */
  function Advance(i: nat): (j: nat)
    requires i < Capacity
    ensures j < Capacity
    ensures j == if i == Capacity - 1 then 0 else i + 1
  {
    (i + 1) % Capacity
  }

  /** Slot holding the `k`-th order counted from the read index `out`. */
  function SlotAt(out: nat, k: nat): (s: nat)
    ensures s < Capacity
  {
    (out + k) % Capacity
  }

  /** Agreement of the write index, the read index, the free-slot count and
      the pending-order count: both indices in range, the two counts adding up
      to the capacity, and the write index `pending` slots past the read index. */
  predicate Consistent(writeIndex: nat, readIndex: nat, free: nat, pending: nat)
  {
    writeIndex < Capacity && readIndex < Capacity &&
    free + pending == Capacity &&
    writeIndex == SlotAt(readIndex, pending)
  }

  /** The `count` orders held by the ring `buf`, oldest first, starting at the
      read index `out`. */
  ghost function Window(buf: seq<int>, out: nat, count: nat): (w: seq<int>)
    requires |buf| == Capacity && out < Capacity && count <= Capacity
    ensures |w| == count
    ensures forall k :: 0 <= k < count ==> w[k] == buf[SlotAt(out, k)]
    decreases count
  {
    if count == 0 then [] else [buf[out]] + Window(buf, Advance(out), count - 1)
  }

  /** Writing at the slot after the last occupied one appends to the window. */
  lemma WindowPush(buf: seq<int>, out: nat, count: nat, x: int)
    requires |buf| == Capacity && out < Capacity && count < Capacity
    ensures Window(buf[SlotAt(out, count) := x], out, count + 1) == Window(buf, out, count) + [x]
  {
    var after := Window(buf[SlotAt(out, count) := x], out, count + 1);
    var before := Window(buf, out, count);
    forall k | 0 <= k < count
      ensures after[k] == before[k]
    {
      SlotsDistinct(out, k, count);
    }
    assert after == before + [x];
  }

  /** Two positions of one window, fewer than `Capacity` apart, never share a slot. */
  lemma SlotsDistinct(out: nat, k: nat, n: nat)
    requires out < Capacity && k < n < Capacity
    ensures SlotAt(out, k) != SlotAt(out, n)
  {
  }

  /** The first order of a non-empty window sits at the read index; the rest
      is the window that starts one slot later. */
  lemma WindowPop(buf: seq<int>, out: nat, count: nat)
    requires |buf| == Capacity && out < Capacity && 0 < count <= Capacity
    ensures Window(buf, out, count)[0] == buf[out]
    ensures Window(buf, out, count)[1..] == Window(buf, Advance(out), count - 1)
  {
  }

  /** The initial state of the program (both indices 0, all slots free, no
      pending order) is consistent. */
  lemma InitialConsistent()
    ensures Consistent(0, 0, Capacity, 0)
  {
  }

  /** A waiter step (one free slot taken, write index advanced, one pending
      order announced) keeps the indices and the counts in agreement. */
  lemma InsertKeepsConsistent(w: nat, r: nat, free: nat, pending: nat)
    requires Consistent(w, r, free, pending) && free > 0
    ensures Consistent(Advance(w), r, free - 1, pending + 1)
  {
  }

  /** A cook step (one pending order taken, read index advanced, one free
      slot announced) keeps the indices and the counts in agreement. */
  lemma RemoveKeepsConsistent(w: nat, r: nat, free: nat, pending: nat)
    requires Consistent(w, r, free, pending) && pending > 0
    ensures Consistent(w, Advance(r), free + 1, pending - 1)
  {
  }

  /** Both counts stay within [0, Capacity]. */
  lemma CountsBounded(w: nat, r: nat, free: nat, pending: nat)
    requires Consistent(w, r, free, pending)
    ensures pending <= Capacity && free <= Capacity
  {
  }

  /** The two indices coincide exactly when the queue is empty or full, so the
      indices alone cannot tell those two states apart: only the counts can. */
  lemma IndicesMeetIffEmptyOrFull(w: nat, r: nat, free: nat, pending: nat)
    requires Consistent(w, r, free, pending)
    ensures w == r <==> (pending == 0 || free == 0)
  {
  }
}
