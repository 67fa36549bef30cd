/**
 The order book refines the order index: over well-formed limit-order events each price level is the
 sum of what is left of the hot orders resting there.
 */
module BookOrders {
  import opened Ints
  import opened Sums
  import opened WriteSets
  import opened Books
  import opened OrderIndex
  import opened Processor

  function Remaining(s: StoredOrder): u64 {
    SatSub(s.size, s.filled)
  }

  function WeightAt(spot: Spot, side: Side, price: u64): StoredOrder -> nat {
    (s: StoredOrder) => if s.spot == spot && s.side == side && s.price == price then Remaining(s) else 0
  }

  /** What hot orders leave resting at one price. */
  ghost function Resting(orders: map<OrderUuid, StoredOrder>, spot: Spot, side: Side, price: u64): nat {
    SumOver(orders, WeightAt(spot, side, price))
  }

  /** Orders that can never match are indexed at price zero but never enter the book. */
  ghost predicate LevelsAreSums(b: Book, orders: map<OrderUuid, StoredOrder>, spot: Spot) {
    forall side: Side, price: u64 ::
      b.Size(side, price) == if price == 0 then 0 else Resting(orders, spot, side, price)
  }

  ghost predicate NotOverfilled(orders: map<OrderUuid, StoredOrder>) {
    forall id :: id in orders ==> orders[id].filled <= orders[id].size
  }

  ghost predicate IdsOwn(o: Orders) {
    forall id :: id in o.orders ==> id == V5(o.orders[id].spot, o.orders[id].chain)
  }

  lemma IdsOwnKept(o: Orders, spot: Spot, e: MarketEvent)
    requires IdsOwn(o)
    ensures IdsOwn(OpOrders(o, spot, OrderPart(spot, e)))
  {
  }

  ghost predicate Refines(m: Mem, spot: Spot) {
    var b := BookAt(m.books, spot);
    && b.hydrated && b.NoEmptyLevel()
    && LevelsAreSums(b, m.orders.orders, spot)
    && Coherent(m.orders) && NotOverfilled(m.orders.orders) && IdsOwn(m.orders)
  }

  /** The event names a hot order by its resting side and price. */
  ghost predicate Names(o: Orders, spot: Spot, chain: string, side: Side, price: u64) {
    var id := Find(o, spot, chain);
    id.Some? && o.orders[id.value].side == side && o.orders[id.value].price == price
  }

  /** Events the chain emits for limit orders: fresh ids, amounts within what remains, no level over 2^64 - 1. */
  ghost predicate WellFormedEvent(m: Mem, spot: Spot, e: MarketEvent) {
    var o := m.orders;
    match e
    case Created(chain, _, side, kind, amount, _, _) =>
      && kind.Limit? && OnchainId(spot, chain) !in o.byId
      && (kind.price > 0 ==> Resting(o.orders, spot, side, kind.price) + amount <= U64_MAX)
    case Cancelled(chain, side, price, amount) =>
      && Names(o, spot, chain, side, price)
      && amount == Remaining(o.orders[Find(o, spot, chain).value])
    case Updated(chain, side, price, oldAmount, newAmount, remaining, _) =>
      && Names(o, spot, chain, side, price)
      && var s := o.orders[Find(o, spot, chain).value];
      && oldAmount == s.size && s.filled <= newAmount && remaining == newAmount - s.filled
      && (price > 0 ==> Resting(o.orders, spot, side, price) - Remaining(s) + remaining <= U64_MAX)
    case Filled(chain, side, price, amount, remaining, full, _, _) =>
      && Names(o, spot, chain, side, price)
      && var s := o.orders[Find(o, spot, chain).value];
      && amount <= Remaining(s) && remaining == Remaining(s) - amount && (full ==> remaining == 0)
    case Executed(_, _, _, _, _, _, _) => true
  }

  // ---- How sums and levels move ----

  lemma RestingSet(orders: map<OrderUuid, StoredOrder>, id: OrderUuid, s: StoredOrder, spot: Spot, side: Side, price: u64)
    ensures Resting(orders[id := s], spot, side, price) ==
            Resting(orders, spot, side, price)
            - (if id in orders then WeightAt(spot, side, price)(orders[id]) else 0)
            + WeightAt(spot, side, price)(s)
    ensures Resting(orders - {id}, spot, side, price) ==
            Resting(orders, spot, side, price)
            - (if id in orders then WeightAt(spot, side, price)(orders[id]) else 0)
  {
    SumSet(orders, WeightAt(spot, side, price), id, s);
  }

  /** The order the event names moves from `before` to `after` remaining units; the level follows. */
  ghost predicate Follows(o: map<OrderUuid, StoredOrder>, p: map<OrderUuid, StoredOrder>, spot: Spot, op: BookOp,
                          before: u64, after: u64)
  {
    forall side: Side, price: u64 ::
      Resting(p, spot, side, price) ==
      Resting(o, spot, side, price) + if side == op.side && price == op.price then after - before else 0
  }

  /** The level change that moves `before` to `after`. */
  function EditBetween(before: u64, after: u64): Option<Edit> {
    if before == after then None
    else if after > before then Some(Edit(after - before, true))
    else Some(Edit(before - after, false))
  }

  function AfterOp(b: Book, op: BookOp, blockNum: u64): Book {
    if EditOf(op).None? then b else OpBook(b, op, blockNum)
  }

  lemma LevelFollows(b: Book, op: BookOp, blockNum: u64, o: map<OrderUuid, StoredOrder>, p: map<OrderUuid, StoredOrder>,
                     spot: Spot, before: u64, after: u64)
    requires LevelsAreSums(b, o, spot) && Follows(o, p, spot, op, before, after)
    requires before <= Resting(o, spot, op.side, op.price)
    requires op.price > 0 ==> Resting(p, spot, op.side, op.price) <= U64_MAX
    requires op.price > 0 ==> EditOf(op) == EditBetween(before, after)
    ensures LevelsAreSums(AfterOp(b, op, blockNum), p, spot)
  {
    var c := AfterOp(b, op, blockNum);
    forall side: Side, price: u64
      ensures c.Size(side, price) == if price == 0 then 0 else Resting(p, spot, side, price)
    {
      assert Resting(p, spot, side, price) ==
             Resting(o, spot, side, price) + if side == op.side && price == op.price then after - before else 0;
      assert b.Size(side, price) == if price == 0 then 0 else Resting(o, spot, side, price);
      SizeAfter(b, op, blockNum, side, price);
    }
  }

  lemma SizeAfter(b: Book, op: BookOp, blockNum: u64, side: Side, price: u64)
    ensures var edit, size := EditOf(op), b.Size(side, price);
            AfterOp(b, op, blockNum).Size(side, price) ==
            if edit.None? || side != op.side || price != op.price then size
            else if edit.value.isAdd then SatAdd(size, edit.value.amount) else SatSub(size, edit.value.amount)
  {
    if EditOf(op).Some? {
      OpLevels(b, op, blockNum, side);
    }
  }

  /** What an order leaves resting once its status is settled. */
  function Left(s: StoredOrder): u64 {
    if s.Hot() then Remaining(s) else 0
  }

  lemma ChangeFollows(o: Orders, spot: Spot, op: BookOp, change: OrderOp, id: OrderUuid)
    requires Coherent(o) && !change.Insert? && Find(o, spot, change.chain) == Some(id)
    requires o.orders[id].side == op.side && o.orders[id].price == op.price
    ensures Follows(o.orders, OpOrders(o, spot, change).orders, spot, op,
                    Remaining(o.orders[id]), Left(Changed(o.orders[id], change)))
    ensures Remaining(o.orders[id]) <= Resting(o.orders, spot, op.side, op.price)
  {
    var s := o.orders[id];
    var t := Changed(s, change);
    assert s.spot == spot;
    forall side: Side, price: u64
      ensures Resting(OpOrders(o, spot, change).orders, spot, side, price) == Resting(o.orders, spot, side, price) +
              if side == op.side && price == op.price then Left(t) - Remaining(s) else 0
    {
      RestingSet(o.orders, id, t, spot, side, price);
    }
    SumSplit(o.orders, WeightAt(spot, op.side, op.price), id);
  }

  /** Cancel, amend and fill: the named order changes or leaves, and its level with it. */
  lemma ChangeRefines(b: Book, o: Orders, spot: Spot, op: BookOp, blockNum: u64, change: OrderOp, id: OrderUuid)
    requires LevelsAreSums(b, o.orders, spot) && Coherent(o) && NotOverfilled(o.orders)
    requires !change.Insert? && Find(o, spot, change.chain) == Some(id)
    requires o.orders[id].side == op.side && o.orders[id].price == op.price
    requires Changed(o.orders[id], change).filled <= Changed(o.orders[id], change).size
    requires op.price > 0 ==> Resting(o.orders, spot, op.side, op.price) - Remaining(o.orders[id])
                              + Left(Changed(o.orders[id], change)) <= U64_MAX
    requires op.price > 0 ==> EditOf(op) == EditBetween(Remaining(o.orders[id]), Left(Changed(o.orders[id], change)))
    ensures LevelsAreSums(AfterOp(b, op, blockNum), OpOrders(o, spot, change).orders, spot)
    ensures Coherent(OpOrders(o, spot, change)) && NotOverfilled(OpOrders(o, spot, change).orders)
  {
    OpCoherent(o, spot, change);
    ChangeFollows(o, spot, op, change, id);
    LevelFollows(b, op, blockNum, o.orders, OpOrders(o, spot, change).orders, spot,
                 Remaining(o.orders[id]), Left(Changed(o.orders[id], change)));
  }

  lemma CreateRefines(b: Book, o: Orders, spot: Spot, op: BookOp, blockNum: u64, s: StoredOrder)
    requires LevelsAreSums(b, o.orders, spot) && Coherent(o) && NotOverfilled(o.orders)
    requires op == BookCreated(s.side, s.price, s.size)
    requires s.spot == spot && s.filled == 0 && s.Hot() && s.id !in o.orders && s.Key() !in o.byId
    requires s.price > 0 ==> Resting(o.orders, spot, s.side, s.price) + s.size <= U64_MAX
    ensures var p := OpOrders(o, spot, Insert(s));
            && LevelsAreSums(AfterOp(b, op, blockNum), p.orders, spot)
            && Coherent(p) && NotOverfilled(p.orders)
  {
    var p := OpOrders(o, spot, Insert(s));
    OpCoherent(o, spot, Insert(s));
    forall side: Side, price: u64
      ensures Resting(p.orders, spot, side, price) == Resting(o.orders, spot, side, price) +
              if side == op.side && price == op.price then s.size - 0 else 0
    {
      RestingSet(o.orders, s.id, s, spot, side, price);
    }
    LevelFollows(b, op, blockNum, o.orders, p.orders, spot, 0, s.size);
  }

  /** The book call an event boils down to in a hydrated market. */
  function BookPart(e: MarketEvent): Option<BookOp> {
    match e
    case Created(_, _, side, kind, amount, _, _) => if kind.Limit? then Some(BookCreated(side, kind.price, amount)) else None
    case Cancelled(_, side, price, amount) => Some(BookCancelled(side, price, amount))
    case Updated(_, side, price, oldAmount, newAmount, remaining, _) =>
      Some(BookUpdated(side, price, oldAmount, newAmount, remaining))
    case Filled(_, side, price, amount, _, _, timeMs, _) => Some(BookFilled(side, price, amount, price, timeMs))
    case Executed(_, _, _, _, _, _, _) => None
  }

  ghost predicate BoilsDown(x: Exec, spot: Spot, blockNum: u64, e: MarketEvent, y: Mem) {
    && y.books == (if BookPart(e).None? then x.mem.books else OpShards(x.mem.books, spot, BookPart(e).value, blockNum))
    && y.orders == OpOrders(x.mem.orders, spot, OrderPart(spot, e))
  }

  /** A trade record and a vault fill leave books and orders alone, and so does ensuring a hydration that is there. */
  lemma Sideline(x: Exec, spot: Spot, op: Op)
    requires op.RecordTrade? || op.VaultFill?
    ensures OpExec(x, spot, op).mem.books == x.mem.books && OpExec(x, spot, op).mem.orders == x.mem.orders
  {
  }

  lemma HydratedCreated(x: Exec, spot: Spot, blockNum: u64, e: MarketEvent)
    requires BookAt(x.mem.books, spot).hydrated && (e.Created? || e.Executed?)
    requires e.Created? ==> OnchainId(spot, e.chain) !in x.mem.orders.byId
    ensures BoilsDown(x, spot, blockNum, e, Unfolded(x, spot, blockNum, e).mem)
  {
  }

  lemma HydratedUpdated(x: Exec, spot: Spot, blockNum: u64, e: MarketEvent)
    requires BookAt(x.mem.books, spot).hydrated && (e.Cancelled? || e.Updated?)
    ensures BoilsDown(x, spot, blockNum, e, Unfolded(x, spot, blockNum, e).mem)
  {
  }

  lemma HydratedFilled(x: Exec, spot: Spot, blockNum: u64, e: MarketEvent)
    requires BookAt(x.mem.books, spot).hydrated && e.Filled?
    ensures BoilsDown(x, spot, blockNum, e, Unfolded(x, spot, blockNum, e).mem)
  {
    Sideline(x, spot, RecordTrade(e.price));
  }

  lemma HydratedEvent(x: Exec, spot: Spot, blockNum: u64, e: MarketEvent)
    requires BookAt(x.mem.books, spot).hydrated
    requires e.Created? ==> OnchainId(spot, e.chain) !in x.mem.orders.byId
    ensures BoilsDown(x, spot, blockNum, e, RunEvent(x, spot, blockNum, e).mem)
  {
    EventUnfolds(x, spot, blockNum, e);
    match e
    case Created(_, _, _, _, _, _, _) => HydratedCreated(x, spot, blockNum, e);
    case Executed(_, _, _, _, _, _, _) => HydratedCreated(x, spot, blockNum, e);
    case Cancelled(_, _, _, _) => HydratedUpdated(x, spot, blockNum, e);
    case Updated(_, _, _, _, _, _, _) => HydratedUpdated(x, spot, blockNum, e);
    case Filled(_, _, _, _, _, _, _, _) => HydratedFilled(x, spot, blockNum, e);
  }

  /** The book and the orders after the event still agree. */
  ghost predicate StillRefines(m: Mem, spot: Spot, e: MarketEvent, blockNum: u64)
    requires BookPart(e).Some?
  {
    var p := OpOrders(m.orders, spot, OrderPart(spot, e));
    && LevelsAreSums(AfterOp(BookAt(m.books, spot), BookPart(e).value, blockNum), p.orders, spot)
    && Coherent(p) && NotOverfilled(p.orders)
  }

  lemma FreshId(o: Orders, spot: Spot, chain: string)
    requires Coherent(o) && IdsOwn(o) && OnchainId(spot, chain) !in o.byId
    ensures V5(spot, chain) !in o.orders
  {
    assert V5(spot, chain) in o.orders ==> o.orders[V5(spot, chain)].Key() == OnchainId(spot, chain);
  }

  /** A resting order fits its level; at price zero, where no level exists, sums are not bounded. */
  lemma CancelBound(m: Mem, spot: Spot, e: MarketEvent, id: OrderUuid)
    requires Refines(m, spot) && (e.Cancelled? || e.Filled?) && Find(m.orders, spot, e.chain) == Some(id)
    requires Names(m.orders, spot, e.chain, e.side, e.price)
    ensures e.price > 0 ==> Resting(m.orders.orders, spot, e.side, e.price) <= U64_MAX
  {
    assert BookAt(m.books, spot).Size(e.side, e.price) == if e.price == 0 then 0 else Resting(m.orders.orders, spot, e.side, e.price);
  }

  lemma CreatedRefines(m: Mem, spot: Spot, blockNum: u64, e: MarketEvent)
    requires Refines(m, spot) && WellFormedEvent(m, spot, e) && e.Created?
    ensures StillRefines(m, spot, e, blockNum)
  {
    var s := CreatedOrder(spot, e);
    FreshId(m.orders, spot, e.chain);
    CreateRefines(BookAt(m.books, spot), m.orders, spot, BookPart(e).value, blockNum, s);
  }

  lemma CancelledRefines(m: Mem, spot: Spot, blockNum: u64, e: MarketEvent)
    requires Refines(m, spot) && WellFormedEvent(m, spot, e) && e.Cancelled?
    ensures StillRefines(m, spot, e, blockNum)
  {
    var id := Find(m.orders, spot, e.chain).value;
    assert Left(Changed(m.orders.orders[id], Cancel(e.chain))) == 0;
    CancelBound(m, spot, e, id);
    ChangeRefines(BookAt(m.books, spot), m.orders, spot, BookPart(e).value, blockNum, Cancel(e.chain), id);
  }

  lemma UpdatedRefines(m: Mem, spot: Spot, blockNum: u64, e: MarketEvent)
    requires Refines(m, spot) && WellFormedEvent(m, spot, e) && e.Updated?
    ensures StillRefines(m, spot, e, blockNum)
  {
    var id := Find(m.orders, spot, e.chain).value;
    var change := Amend(e.chain, e.newAmount, e.remaining);
    var t := Changed(m.orders.orders[id], change);
    assert Left(t) == e.remaining;
    assert OldRemaining(e.oldAmount, e.newAmount, e.remaining) == Remaining(m.orders.orders[id]);
    ChangeRefines(BookAt(m.books, spot), m.orders, spot, BookPart(e).value, blockNum, change, id);
  }

  lemma FilledRefines(m: Mem, spot: Spot, blockNum: u64, e: MarketEvent)
    requires Refines(m, spot) && WellFormedEvent(m, spot, e) && e.Filled?
    ensures StillRefines(m, spot, e, blockNum)
  {
    var id := Find(m.orders, spot, e.chain).value;
    var change := Fill(e.chain, e.amount, e.remaining, e.full);
    var t := Changed(m.orders.orders[id], change);
    assert Left(t) == e.remaining;
    CancelBound(m, spot, e, id);
    ChangeRefines(BookAt(m.books, spot), m.orders, spot, BookPart(e).value, blockNum, change, id);
  }

  lemma Assemble(m: Mem, y: Mem, spot: Spot, blockNum: u64, e: MarketEvent)
    requires Refines(m, spot) && BookPart(e).Some? && StillRefines(m, spot, e, blockNum)
    requires y.books == OpShards(m.books, spot, BookPart(e).value, blockNum)
    requires y.orders == OpOrders(m.orders, spot, OrderPart(spot, e))
    ensures Refines(y, spot)
  {
    IdsOwnKept(m.orders, spot, e);
    NoEmptyLevelKept(BookAt(m.books, spot), BookPart(e).value, blockNum, ChainBook([], []), None);
  }

  /** One event keeps the refinement. */
  lemma EventRefines(x: Exec, spot: Spot, blockNum: u64, e: MarketEvent)
    requires Refines(x.mem, spot) && WellFormedEvent(x.mem, spot, e)
    ensures Refines(RunEvent(x, spot, blockNum, e).mem, spot)
  {
    var y := RunEvent(x, spot, blockNum, e).mem;
    HydratedEvent(x, spot, blockNum, e);
    if e.Executed? {
      assert y.orders == x.mem.orders;
      return;
    }
    match e {
      case Created(_, _, _, _, _, _, _) => CreatedRefines(x.mem, spot, blockNum, e);
      case Cancelled(_, _, _, _) => CancelledRefines(x.mem, spot, blockNum, e);
      case Updated(_, _, _, _, _, _, _) => UpdatedRefines(x.mem, spot, blockNum, e);
      case Filled(_, _, _, _, _, _, _, _) => FilledRefines(x.mem, spot, blockNum, e);
    }
    Assemble(x.mem, y, spot, blockNum, e);
  }

  /** Every event of the trace is well formed in the memory it meets. */
  ghost predicate WellFormedTrace(x: Exec, spot: Spot, blockNum: u64, events: seq<MarketEvent>) {
    forall i :: 0 <= i < |events| ==> WellFormedAt(x, spot, blockNum, events, i)
  }

  ghost predicate WellFormedAt(x: Exec, spot: Spot, blockNum: u64, events: seq<MarketEvent>, i: nat)
    requires i < |events|
  {
    WellFormedEvent(RunEvents(x, spot, blockNum, events[..i]).mem, spot, events[i])
  }

  /** Book refines orders, over every well-formed trace. */
  lemma {:induction false} TraceRefines(x: Exec, spot: Spot, blockNum: u64, events: seq<MarketEvent>)
    requires Refines(x.mem, spot) && WellFormedTrace(x, spot, blockNum, events)
    ensures Refines(RunEvents(x, spot, blockNum, events).mem, spot)
  {
    PrefixRefines(x, spot, blockNum, events, |events|);
    assert events[..|events|] == events;
  }

  lemma {:induction false} PrefixRefines(x: Exec, spot: Spot, blockNum: u64, events: seq<MarketEvent>, n: nat)
    requires Refines(x.mem, spot) && WellFormedTrace(x, spot, blockNum, events) && n <= |events|
    ensures Refines(RunEvents(x, spot, blockNum, events[..n]).mem, spot)
  {
    if n > 0 {
      PrefixRefines(x, spot, blockNum, events, n - 1);
      assert WellFormedAt(x, spot, blockNum, events, n - 1);
      NextRefines(x, spot, blockNum, events, n - 1);
    }
  }

  lemma {:induction false} NextRefines(x: Exec, spot: Spot, blockNum: u64, events: seq<MarketEvent>, n: nat)
    requires n < |events| && WellFormedAt(x, spot, blockNum, events, n)
    requires Refines(RunEvents(x, spot, blockNum, events[..n]).mem, spot)
    ensures Refines(RunEvents(x, spot, blockNum, events[..n + 1]).mem, spot)
  {
    RunNext(x, spot, blockNum, events, n);
    EventRefines(RunEvents(x, spot, blockNum, events[..n]), spot, blockNum, events[n]);
  }

  /** The trace may start from an empty, hydrated book and no orders. */
  lemma EmptyRefines(m: Mem, spot: Spot)
    requires m.orders == NO_ORDERS && BookAt(m.books, spot) == EMPTY_BOOK.(hydrated := true)
    ensures Refines(m, spot)
  {
  }
}
