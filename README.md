# Pizzeria order queue

A model of the concurrent pizzeria in `pizzaria.c`. Waiter threads make up
order numbers and put them into a shared queue. Cook threads take orders out
of it and write each one to a pipe read by a delivery process.

The queue is a fixed array of five slots (`fila_pedidos`) used as a ring. It
has a write index (`indice_entrada`) and a read index (`indice_saida`), both
advanced modulo the capacity. Two counting semaphores guard it: `sem_vagas`
counts free slots and `sem_pedidos` counts pending orders.

The model has three modules:

- `OrderRing` (`ring.dfy`) holds the pure arithmetic of the ring. It has the
  capacity, the modular advance of an index, the agreement between the two
  indices and the two counts (`Consistent`), and the logical contents of the
  ring (`Window`: the occupied slots read from the read index onwards).
- `Pizzaria` (`pizzaria.dfy`) holds class `OrderQueue`. Its fields are the
  array, the two indices and the two semaphore counts. A waiter pass, a
  cook's take and a cook's pipe write are each one atomic method that updates
  them in place. `CookStep` chains a take and a pipe write for a cook pass
  during which no other cook acts between the two. A waiting
  `sem_wait` becomes a precondition that the matching count is positive. Ghost
  fields record every order inserted, every order taken, the orders a cook
  holds and the orders written to the delivery pipe. `Valid()` ties them to
  the ring, so the queue is first-in first-out and no order is lost or
  duplicated. The module also has the order-number generator
  `rand() % 100 + 1`.
- `Kitchen` (`kitchen.dfy`) covers a finite stretch of the program's run that
  begins while every cook is idle, as when the cook threads start. A
  schedule lists the steps that complete, in order: a whole waiter pass, a
  cook taking an order (which frees its slot), or a cook writing a held order
  to the delivery pipe. With three cooks, orders can be delivered in another
  order than they were taken. `Replay` runs a schedule on a plain bounded
  FIFO queue of sequences plus the multiset of orders the cooks hold. `Run`
  drives the ring buffer through the same schedule and is proved to end in
  the same state.

## Model

| member | source | states |
|---|---|---|
| `OrderRing.Advance` | pizzaria.c:53 | the next index stays in [0, 5); it is the index plus one, wrapping from 4 to 0 |
| `OrderRing.Window` | pizzaria.c:29-31 | the logical queue has exactly `count` orders; its k-th order sits in slot `(read index + k) % 5` |
| `OrderRing.WindowPush` | pizzaria.c:52-53 | writing the slot just past the last occupied one appends that order to the logical queue and leaves the earlier orders in place |
| `OrderRing.WindowPop` | pizzaria.c:77-78 | the oldest order sits at the read index; what remains is the window that starts one slot later |
| `OrderRing.InitialConsistent` | pizzaria.c:110-111 | both indices 0, five free slots and no pending order agree with each other |
| `OrderRing.InsertKeepsConsistent` | pizzaria.c:47-60 | taking a free slot, advancing the write index and posting a pending order keeps indices in range, free + pending == 5 and write index == read index + pending (mod 5) |
| `OrderRing.RemoveKeepsConsistent` | pizzaria.c:72-85 | taking a pending order, advancing the read index and posting a free slot keeps the same agreement |
| `OrderRing.CountsBounded` | pizzaria.c:34-35 | in an agreeing state both semaphore counts lie in [0, 5] |
| `OrderRing.IndicesMeetIffEmptyOrFull` | pizzaria.c:29-35 | the two indices are equal exactly when the queue is empty or full, so only the semaphores tell those two states apart |
| `Pizzaria.GenerateOrderId` | pizzaria.c:43 | for any non-negative `rand()` result the order number lies in [1, 100]; results below 100 map to themselves plus one |
| `Pizzaria.OrderIdReachable` | pizzaria.c:43 | every number in [1, 100] is produced by some `rand()` result |
| `Pizzaria.OrderQueue.constructor` | pizzaria.c:29-31 | initial state: zeroed array, both indices 0, five free slots, no pending order, empty queue and empty histories |
| `Pizzaria.OrderQueue.Insert` | pizzaria.c:47-60 | needs a free slot; writes the order into exactly the slot at the old write index, leaves every other slot alone, advances the write index to `(i+1) % 5`, moves one unit from free to pending, appends the order to the queue's contents and keeps the invariant |
| `Pizzaria.OrderQueue.Remove` | pizzaria.c:72-85 | needs a pending order; returns the slot at the read index, which is the head of the contents and the earliest inserted order not yet taken; does not write the array; advances the read index; moves one unit from pending to free; the cook now holds the order |
| `Pizzaria.OrderQueue.Forward` | pizzaria.c:92 | a held order is appended to the delivery pipe once and leaves the cook's hands; array, indices and counts are untouched, so forwarding occupies no slot |
| `Pizzaria.OrderQueue.CookStep` | pizzaria.c:70-94 | one cook pass with no other cook acting between its take and its pipe write: the oldest order is taken, its slot released, then the order is forwarded; taken and delivered grow by the same order, so if no cook held an order before, delivery order equals removal order |
| `Pizzaria.OrderQueue.WaiterStep` | pizzaria.c:42-61 | one waiter pass: an order number in [1, 100] is generated from the `rand()` result and written into exactly the slot at the old write index, every other slot left alone; the write index advances to `(i+1) % 5`, one unit moves from free to pending, the order is appended to the contents and the invariant is kept |
| `Pizzaria.NoLossNoDuplication` | pizzaria.c:47-92 | in every valid state the counts lie in [0, 5], the queue holds exactly the pending orders, and the inserted orders are, as a multiset, the delivered ones plus those held by cooks plus those still queued |
| `Kitchen.WaiterConserves` | pizzaria.c:47-60 | a waiter step keeps the abstract queue within 5 orders, at most 3 orders held, queued-and-accepted == taken + queue, and taken == delivered + held as multisets |
| `Kitchen.TakeConserves` | pizzaria.c:72-85 | a cook's take (the head of the queue moves to the cook when an order is pending and a cook is idle) keeps the same facts |
| `Kitchen.DeliverConserves` | pizzaria.c:88-92 | a cook's delivery (a held order moves to the pipe) keeps the same facts |
| `Kitchen.ReplayConserves` | pizzaria.c:40-96 | for any schedule of waiter passes, takes and deliveries: the queue never exceeds 5 orders and at most 3 are held; initial queue + accepted orders == taken orders + final queue, so orders are taken in FIFO order (taken is a prefix of queued-then-accepted); every taken order is delivered or held, exactly once (as multisets) |
| `Kitchen.TwoCooksTakeTwoOrders` | pizzaria.c:18 | from an empty queue, two waiters queue orders 10 and 20 and two different cooks then hold both at once |
| `Kitchen.DeliveryMayReorder` | pizzaria.c:85-92 | with two cooks holding orders 10 and 20 (taken in that order), the cook holding 20 may deliver first: the pipe receives 20 then 10, so delivery order need not equal removal order |
| `Kitchen.WaiterPass` | pizzaria.c:42-61 | a waiter pass on the ring buffer (inserting when a slot is free, doing nothing while blocked) matches one waiter step of the abstract queue and leaves the array object in place |
| `Kitchen.TakePass` | pizzaria.c:72-85 | a cook's take on the ring buffer (removing the oldest order when one is pending and a cook is idle, doing nothing otherwise) matches one take step of the abstract queue; the taken order joins the held orders |
| `Kitchen.DeliverPass` | pizzaria.c:88-92 | a held order written to the pipe on the ring buffer's side matches one delivery step of the abstract queue; the queue itself is untouched |
| `Kitchen.Pass` | pizzaria.c:40-96 | any single step of a schedule on the ring buffer matches the same step of the abstract queue |
| `Kitchen.Run` | pizzaria.c:40-96 | starting with every cook idle (as the cook threads start, pizzaria.c:153-155), running any finite schedule of waiter passes, cook takes and cook deliveries on the ring buffer ends with the same queue, accepted, taken, delivered and held orders as `Replay` on the abstract queue, and the cooks hold at most 3 orders; with `ReplayConserves` this gives FIFO removal and every taken order delivered or held exactly once, in any delivery order |

## Left out

- Threads, their creation and joining, and the mutex (pizzaria.c:50, 57, 75, 82, 144-159): a waiter pass, a cook's take and a cook's delivery are each one atomic step, so interleavings inside one of them are not modelled.
- Blocking in `sem_wait`: a pass may only run when its semaphore count is positive; in `Kitchen` a step that cannot proceed (its count at zero, no idle cook, or no cook holding the named order) changes nothing, standing for threads still waiting.
- The non-atomic stretch of each pass, from `sem_wait` to `sem_post` (pizzaria.c:47-60, 72-85): there the counts sum to less than five, and from the index update (pizzaria.c:53, 78) to `sem_post` the index relation of `Consistent` (write index == read index + pending, mod 5) does not hold either. The model never shows those states: `Valid()` holds only between passes.
- The unbounded `while (1)` loops: `Kitchen.Run` covers every finite prefix of a run, not infinite runs or liveness.
- `fork`, `pipe`, `read`, `write`, `close`, `wait`, `exit` (pizzaria.c:103-106, 117-139, 142, 165-166): the pipe is a ghost append-only sequence of written orders; the delivery process that reads it is not modelled.
- `rand`, `srand`, `sleep` (pizzaria.c:43-44, 88, 100, 134): each `rand()` result used for an order number is a parameter; the delays are not modelled, except that a cook's preparation time is the gap, of any length, between its take and its delivery.
- `printf` logging and the colour codes (pizzaria.c:21-26, 55, 80, 93, 113-114, 129, 133).
- `perror` start-up failures and teardown (pizzaria.c:104-105, 120-121, 162-164).
- Machine integers: order numbers are in [1, 100] and indices and counts stay within [0, 5], so C `int` overflow cannot occur and is not modelled; `%` is applied only to non-negative values, where C and Dafny agree.
