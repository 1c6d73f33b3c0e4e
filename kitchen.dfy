/** A finite stretch of the kitchen's life: the waiter and cook loops run
    forever and the scheduler interleaves their passes. A schedule lists the
    steps that complete, in order. A waiter step is one whole waiter pass. A
    cook's pass is two steps: taking an order out of the queue (which frees
    its slot) and, after the cook's preparation time, writing it to the
    delivery pipe. Between the two the cook holds the order, and other cooks
    may take and deliver orders meanwhile. A step that cannot proceed (its
    semaphore at zero, no idle cook, or no cook holding the named order)
    stands for threads still waiting, so it changes nothing.

    The reference behaviour is a bounded FIFO queue of capacity `Capacity`
    over plain sequences (`Replay`); `Run` drives the ring-buffer queue
    through the same schedule and is proved to agree with it. */
module Kitchen {
  import opened OrderRing
  import opened Pizzaria

  /** Number of cook threads (NUM_COZINHEIROS): at most this many orders are
      held between taking and delivering. */
  const NumCooks: nat := 3

  /** One completed step: a waiter pass with the `rand()` result it drew, an
      idle cook taking the oldest order, or a cook holding an order with the
      value `order` writing it to the delivery pipe. */
  datatype Event = Waiter(randValue: nat) | CookTake | CookDeliver(order: int)

  /** Abstract state of a run: the queue, the orders accepted into it, the
      orders taken out of it (oldest first), the orders cooks hold, and the
      orders written to the delivery pipe (in the order written). */
  datatype RunState = RunState(queue: seq<int>, accepted: seq<int>, taken: seq<int>,
                               held: multiset<int>, delivered: seq<int>)

  /** One step on the abstract bounded FIFO queue and its cooks. */
  function Step(r: RunState, e: Event): (next: RunState)
  {
    match e
    case Waiter(randValue) =>
      if |r.queue| < Capacity then
        var id := GenerateOrderId(randValue);
        r.(queue := r.queue + [id], accepted := r.accepted + [id])
      else r
    case CookTake =>
      if |r.queue| > 0 && |r.held| < NumCooks then
        r.(queue := r.queue[1..], taken := r.taken + [r.queue[0]],
           held := r.held + multiset{r.queue[0]})
      else r
    case CookDeliver(order) =>
      if order in r.held then
        r.(held := r.held - multiset{order}, delivered := r.delivered + [order])
      else r
  }

  /** The abstract state after the steps `events`, starting from the queue
      `start` with no order held or delivered. */
  function Replay(start: seq<int>, events: seq<Event>): (r: RunState)
    decreases |events|
  {
    if events == [] then RunState(start, [], [], multiset{}, [])
    else Step(Replay(start, events[..|events| - 1]), events[|events| - 1])
  }

  /** The facts a run keeps, for a run that started from the queue `start`:
      the queue within its capacity and at most `NumCooks` orders held;
      what was queued or accepted is what was taken followed by what is still
      queued; every taken order is delivered or held, exactly once. */
  ghost predicate Conserved(start: seq<int>, r: RunState)
  {
    |r.queue| <= Capacity && |r.held| <= NumCooks &&
    start + r.accepted == r.taken + r.queue &&
    multiset(r.taken) == multiset(r.delivered) + r.held
  }

  /** A waiter step keeps a run's facts. */
  lemma WaiterConserves(start: seq<int>, p: RunState, randValue: nat)
    requires Conserved(start, p)
    ensures Conserved(start, Step(p, Waiter(randValue)))
  {
    if |p.queue| < Capacity {
      var id := GenerateOrderId(randValue);
      var r := Step(p, Waiter(randValue));
      calc {
        start + r.accepted;
        start + (p.accepted + [id]);
        (start + p.accepted) + [id];
        (p.taken + p.queue) + [id];
        r.taken + r.queue;
      }
    }
  }

  /** A cook's take keeps a run's facts. */
  lemma TakeConserves(start: seq<int>, p: RunState)
    requires Conserved(start, p)
    ensures Conserved(start, Step(p, CookTake))
  {
  }

  /** A cook's delivery keeps a run's facts. */
  lemma DeliverConserves(start: seq<int>, p: RunState, order: int)
    requires Conserved(start, p)
    ensures Conserved(start, Step(p, CookDeliver(order)))
  {
  }

  /** Whatever the schedule: the queue never exceeds its capacity and at most
      `NumCooks` orders are held; orders leave the queue in the order they
      were queued and accepted (what was queued or accepted is what was taken
      followed by what is still queued, so the taken orders are a prefix of
      it); and every taken order is either delivered or still held, exactly
      once. */
  lemma {:induction false} ReplayConserves(start: seq<int>, events: seq<Event>)
    requires |start| <= Capacity
    ensures Conserved(start, Replay(start, events))
    ensures Replay(start, events).taken <= start + Replay(start, events).accepted
    decreases |events|
  {
    if events != [] {
      var prefix := events[..|events| - 1];
      ReplayConserves(start, prefix);
      var p := Replay(start, prefix);
      match events[|events| - 1]
      case Waiter(randValue) => WaiterConserves(start, p, randValue);
      case CookTake => TakeConserves(start, p);
      case CookDeliver(order) => DeliverConserves(start, p, order);
    }
  }

  /** Two waiters queue orders 10 and 20 (from the `rand()` results 9 and
      19), then each of two cooks takes one. */
  lemma TwoCooksTakeTwoOrders()
    ensures Step(Step(Step(Step(RunState([], [], [], multiset{}, []), Waiter(9)), Waiter(19)),
                      CookTake), CookTake)
         == RunState([], [10, 20], [10, 20], multiset{10, 20}, [])
  {
    var r2 := RunState([10, 20], [10, 20], [], multiset{}, []);
    assert Step(Step(RunState([], [], [], multiset{}, []), Waiter(9)), Waiter(19)) == r2;
  }

  /** Two cooks that deliver in the opposite order to the one they took in:
      after `TwoCooksTakeTwoOrders`, the cook holding order 20 delivers first.
      Every taken order is forwarded exactly once, but not in removal order. */
  lemma DeliveryMayReorder()
    ensures var r4 := RunState([], [10, 20], [10, 20], multiset{10, 20}, []);
      var r6 := Step(Step(r4, CookDeliver(20)), CookDeliver(10));
      r6.taken == [10, 20] && r6.delivered == [20, 10] && r6.held == multiset{}
  {
    var r4 := RunState([], [10, 20], [10, 20], multiset{10, 20}, []);
    assert Step(r4, CookDeliver(20)) == RunState([], [10, 20], [10, 20], multiset{10}, [20]);
  }

  /** The shared queue `q` agrees with the abstract state `r` of a run that
      started when `q` had inserted, taken, delivered and held the given
      orders. */
  ghost predicate Tracks(q: OrderQueue, inserted0: seq<int>, taken0: seq<int>,
                         delivered0: seq<int>, inFlight0: multiset<int>, r: RunState)
    reads q, q.slots
  {
    q.Valid() &&
    q.Contents() == r.queue &&
    q.Inserted == inserted0 + r.accepted &&
    q.Taken == taken0 + r.taken &&
    q.Delivered == delivered0 + r.delivered &&
    q.InFlight == inFlight0 + r.held
  }

  /** A waiter pass on the shared queue `q`: with a free slot it inserts the
      order number made from `randValue`; with none it is still blocked and
      changes nothing. The queue keeps agreeing with the abstract queue. */
  method WaiterPass(q: OrderQueue, randValue: nat, ghost inserted0: seq<int>,
                    ghost taken0: seq<int>, ghost delivered0: seq<int>,
                    ghost inFlight0: multiset<int>, ghost r: RunState)
    requires Tracks(q, inserted0, taken0, delivered0, inFlight0, r)
    modifies q, q.slots
    ensures Tracks(q, inserted0, taken0, delivered0, inFlight0, Step(r, Waiter(randValue)))
    ensures q.slots == old(q.slots)
  {
    assert |q.Contents()| == q.pendingOrders;
    if q.freeSlots > 0 {
      var order := q.WaiterStep(randValue);
      assert inserted0 + r.accepted + [order] == inserted0 + (r.accepted + [order]);
    }
  }

  /** An idle cook's take on the shared queue `q`: with a pending order and
      an idle cook (fewer than `NumCooks` orders in `holding`, the orders the
      cooks of this run hold), it takes the oldest order, which joins
      `holding`; otherwise nothing happens. */
  method TakePass(q: OrderQueue, holding: multiset<int>, ghost inserted0: seq<int>,
                  ghost taken0: seq<int>, ghost delivered0: seq<int>,
                  ghost inFlight0: multiset<int>, ghost r: RunState)
    returns (holding': multiset<int>)
    requires Tracks(q, inserted0, taken0, delivered0, inFlight0, r) && holding == r.held
    modifies q
    ensures Tracks(q, inserted0, taken0, delivered0, inFlight0, Step(r, CookTake))
    ensures holding' == Step(r, CookTake).held
    ensures q.slots == old(q.slots)
  {
    assert |q.Contents()| == q.pendingOrders;
    holding' := holding;
    if q.pendingOrders > 0 && |holding| < NumCooks {
      var order := q.Remove();
      holding' := holding + multiset{order};
      assert taken0 + r.taken + [order] == taken0 + (r.taken + [order]);
    }
  }

  /** A cook's delivery: if a cook of this run holds an order with the value
      `order`, it writes that order to the delivery pipe and becomes idle;
      otherwise nothing happens. The queue itself is untouched. */
  method DeliverPass(q: OrderQueue, order: int, holding: multiset<int>,
                     ghost inserted0: seq<int>, ghost taken0: seq<int>,
                     ghost delivered0: seq<int>, ghost inFlight0: multiset<int>,
                     ghost r: RunState)
    returns (holding': multiset<int>)
    requires Tracks(q, inserted0, taken0, delivered0, inFlight0, r) && holding == r.held
    modifies q
    ensures Tracks(q, inserted0, taken0, delivered0, inFlight0, Step(r, CookDeliver(order)))
    ensures holding' == Step(r, CookDeliver(order)).held
    ensures q.slots == old(q.slots)
  {
    holding' := holding;
    if order in holding {
      q.Forward(order);
      holding' := holding - multiset{order};
      assert delivered0 + r.delivered + [order] == delivered0 + (r.delivered + [order]);
      assert inFlight0 + r.held - multiset{order} == inFlight0 + (r.held - multiset{order});
    }
  }

  /** One step of a schedule on the shared queue `q`, `holding` being the
      orders the cooks of this run hold. */
  method Pass(q: OrderQueue, e: Event, holding: multiset<int>, ghost inserted0: seq<int>,
              ghost taken0: seq<int>, ghost delivered0: seq<int>,
              ghost inFlight0: multiset<int>, ghost r: RunState)
    returns (holding': multiset<int>)
    requires Tracks(q, inserted0, taken0, delivered0, inFlight0, r) && holding == r.held
    modifies q, q.slots
    ensures Tracks(q, inserted0, taken0, delivered0, inFlight0, Step(r, e))
    ensures holding' == Step(r, e).held
    ensures q.slots == old(q.slots)
  {
    match e {
      case Waiter(randValue) =>
        WaiterPass(q, randValue, inserted0, taken0, delivered0, inFlight0, r);
        holding' := holding;
      case CookTake =>
        holding' := TakePass(q, holding, inserted0, taken0, delivered0, inFlight0, r);
      case CookDeliver(order) =>
        holding' := DeliverPass(q, order, holding, inserted0, taken0, delivered0, inFlight0, r);
    }
  }

  /** Runs the schedule `events` on the shared queue `q`, one step at a time,
      starting, as the cook threads do, with every cook idle. The ring buffer
      ends up holding the abstract queue; the orders inserted, taken,
      delivered and held are the abstract accepted, taken, delivered and held
      orders; so the cooks never hold more than `NumCooks` orders, and each
      taken order is delivered or still held, exactly once. */
  method Run(q: OrderQueue, events: seq<Event>)
    requires q.Valid() && q.InFlight == multiset{}
    modifies q, q.slots
    ensures Tracks(q, old(q.Inserted), old(q.Taken), old(q.Delivered), old(q.InFlight),
                   Replay(old(q.Contents()), events))
    ensures |q.InFlight| <= NumCooks
    ensures q.slots == old(q.slots)
  {
    ghost var start := q.Contents();
    ghost var inserted0, taken0, delivered0, inFlight0 := q.Inserted, q.Taken, q.Delivered, q.InFlight;
    var holding: multiset<int> := multiset{};
    assert Tracks(q, inserted0, taken0, delivered0, inFlight0, Replay(start, []));
    var i := 0;
    while i < |events|
      invariant 0 <= i <= |events|
      invariant Tracks(q, inserted0, taken0, delivered0, inFlight0, Replay(start, events[..i]))
      invariant holding == Replay(start, events[..i]).held
      invariant q.slots == old(q.slots)
    {
      assert events[..i + 1][..i] == events[..i];
      holding := Pass(q, events[i], holding, inserted0, taken0, delivered0, inFlight0,
                      Replay(start, events[..i]));
      i := i + 1;
    }
    assert events[..i] == events;
    ReplayConserves(start, events);
  }
}
