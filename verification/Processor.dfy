/** Applying one market's order events to the in-memory index (src/indexer/processor.rs). */
module Processor {
  import opened Ints
  import opened WriteSets
  import opened Books
  import opened OrderIndex
  import opened Text

  /** The persisted part of memory that order events touch. */
  datatype Mem = Mem(
    books: map<Spot, Book>, last: map<Spot, u64>, orders: Orders,
    vaultOf: map<string, string>, holdings: map<string, map<Spot, u64>>)

  // ---- Answers of the node, arbitrary inputs of the model ----

  datatype MarketInfo = InfoDown | Info(lastPrice: Option<u64>)
  datatype NodeAnswer = NodeDown | NodeBook(book: ChainBook, info: MarketInfo)

  datatype Hydration = Hydration(book: ChainBook, last: Option<u64>)

  /** `hydrate_spot_from_chain`: the market is only asked for a last price when none is recorded. */
  function HydrationOf(last: Option<u64>, answer: NodeAnswer): Option<Hydration> {
    match answer
    case NodeDown => None
    case NodeBook(book, info) =>
      if last.Some? then Some(Hydration(book, last))
      else match info case InfoDown => None case Info(p) => Some(Hydration(book, p))
  }

  // ---- Events of one market ----

  datatype OrderKind = Limit(price: u64) | Market | Trigger(limitPrice: u64)

  datatype MarketEvent =
    | Created(chain: string, user: string, side: Side, kind: OrderKind, amount: u64, caption: string, node: NodeAnswer)
    | Cancelled(chain: string, side: Side, price: u64, amount: u64)
    | Updated(chain: string, side: Side, price: u64, oldAmount: u64, newAmount: u64, remaining: u64, node: NodeAnswer)
    | Filled(chain: string, side: Side, price: u64, amount: u64, remaining: u64, full: bool, timeMs: u64, node: NodeAnswer)
    | Executed(chain: string, user: string, side: Side, amount: u64, filled: u64, avgPrice: Option<u64>, caption: string)

  /**
   One call into the shared store: the grain at which the tasks of different markets interleave. A hydration
   is three of them, with waits for the node in between: the check, the question for what to hydrate with,
   and the write of what was found, which does not check again.
   */
  datatype Op =
    | SkipIfKnown(chain: string, count: nat)
    | SkipIfHydrated(count: nat)
    | AskNode(node: NodeAnswer)
    | Commit(found: Option<Hydration>)
    | OnBook(book: BookOp, blockNum: u64)
    | OnOrders(order: OrderOp)
    | RecordTrade(price: u64)
    | VaultFill(chain: string, side: Side, amount: u64)

  function KindPrice(kind: OrderKind): u64 {
    match kind case Limit(p) => p case Market => 0 case Trigger(p) => p
  }

  function CreatedOrder(spot: Spot, e: MarketEvent): StoredOrder
    requires e.Created?
  {
    StoredOrder(V5(spot, e.chain), e.user, e.chain, spot, e.amount, 0, Open, e.side, KindPrice(e.kind), e.caption)
  }

  function ExecutedOrder(spot: Spot, e: MarketEvent): StoredOrder
    requires e.Executed?
  {
    StoredOrder(V5(spot, e.chain), e.user, e.chain, spot, e.amount, e.filled,
                if e.filled > 0 && e.filled >= e.amount then Status.Filled else Status.Cancelled,
                e.side, e.avgPrice.GetOr(0), e.caption)
  }

  /** What an event asks of the orders, once it gets that far. */
  function OrderPart(spot: Spot, e: MarketEvent): OrderOp {
    match e
    case Created(_, _, _, _, _, _, _) => Insert(CreatedOrder(spot, e))
    case Cancelled(chain, _, _, _) => Cancel(chain)
    case Updated(chain, _, _, _, newAmount, remaining, _) => Amend(chain, newAmount, remaining)
    case Filled(chain, _, _, amount, remaining, full, _, _) => Fill(chain, amount, remaining, full)
    case Executed(_, _, _, _, _, _, _) => Insert(ExecutedOrder(spot, e))
  }

  /** New orders of a known chain id are not taken in again. */
  predicate AlreadyKnown(m: Mem, spot: Spot, e: MarketEvent) {
    (e.Created? || e.Executed?) && OnchainId(spot, e.chain) in m.orders.byId
  }

  /** Orders that an event hands over to the history. */
  function EventHistory(m: Mem, spot: Spot, e: MarketEvent): seq<StoredOrder> {
    if AlreadyKnown(m, spot, e) then [] else OpHistory(m.orders, spot, OrderPart(spot, e))
  }

  function Ensuring(node: NodeAnswer): seq<Op> {
    [SkipIfHydrated(2), AskNode(node), Commit(None)]
  }

  /** The store calls of one event, in order. */
  function Calls(spot: Spot, blockNum: u64, e: MarketEvent): seq<Op> {
    match e
    case Created(chain, _, side, kind, amount, _, node) =>
      var insert := OnOrders(Insert(CreatedOrder(spot, e)));
      if kind.Limit? then
        [SkipIfKnown(chain, 5)] + Ensuring(node) + [OnBook(BookCreated(side, kind.price, amount), blockNum), insert]
      else [SkipIfKnown(chain, 4)] + Ensuring(node) + [insert]
    case Cancelled(chain, side, price, amount) =>
      [OnBook(BookCancelled(side, price, amount), blockNum), OnOrders(Cancel(chain))]
    case Updated(chain, side, price, oldAmount, newAmount, remaining, node) =>
      Ensuring(node) + [OnBook(BookUpdated(side, price, oldAmount, newAmount, remaining), blockNum),
                        OnOrders(Amend(chain, newAmount, remaining))]
    case Filled(chain, side, price, amount, remaining, full, timeMs, node) =>
      [RecordTrade(price)] + Ensuring(node)
      + [OnBook(BookFilled(side, price, amount, price, timeMs), blockNum),
         OnOrders(Fill(chain, amount, remaining, full)), VaultFill(chain, side, amount)]
    case Executed(chain, _, _, _, _, _, _) =>
      [SkipIfKnown(chain, 1), OnOrders(Insert(ExecutedOrder(spot, e)))]
  }

  // ---- Specification of one call ----

  function NextHolding(current: u64, side: Side, amount: u64): u64 {
    if side.Buy? then SatAdd(current, amount) else SatSub(current, amount)
  }

  /** The vault that trades through the account of the order's user, if the order is still hot. */
  function VaultOfOrder(m: Mem, spot: Spot, chain: string): Option<string> {
    match Find(m.orders, spot, chain)
    case None => None
    case Some(id) => Get(m.vaultOf, m.orders.orders[id].UserKey())
  }

  function HoldingAt(holdings: map<string, map<Spot, u64>>, vault: string, spot: Spot): u64 {
    Get(Get(holdings, vault).GetOr(map[]), spot).GetOr(0)
  }

  function OpMem(m: Mem, spot: Spot, op: Op): Mem {
    match op
    case SkipIfKnown(_, _) => m
    case SkipIfHydrated(_) => m
    case AskNode(_) => m
    case Commit(found) =>
      (match found
       case None => m
       case Some(h) => m.(books := m.books[spot := HydrateBook(BookAt(m.books, spot), h.book, h.last)]))
    case OnBook(b, blockNum) => m.(books := OpShards(m.books, spot, b, blockNum))
    case OnOrders(o) => m.(orders := OpOrders(m.orders, spot, o))
    case RecordTrade(price) => m.(last := m.last[spot := price])
    case VaultFill(chain, side, amount) =>
      match VaultOfOrder(m, spot, chain)
      case None => m
      case Some(vault) =>
        if amount == 0 then m
        else
          var next := NextHolding(HoldingAt(m.holdings, vault, spot), side, amount);
          m.(holdings := m.holdings[vault := SetAmount(Get(m.holdings, vault).GetOr(map[]), spot, next)])
  }

  function OpDelta(d: Delta, m: Mem, spot: Spot, op: Op): Delta {
    match op
    case SkipIfKnown(_, _) => d
    case SkipIfHydrated(_) => d
    case AskNode(_) => d
    case Commit(found) =>
      (match found
       case None => d
       case Some(h) => CollectHydration(d, spot, BookAt(m.books, spot), h.book, h.last))
    case OnBook(b, blockNum) => CollectBookOp(d, spot, BookAt(m.books, spot), b, blockNum)
    case OnOrders(o) => CollectOrderOp(d, m.orders, spot, o)
    case RecordTrade(price) => d.Put(LastTradeKey(spot), Amount(AsI64(price)))
    case VaultFill(chain, side, amount) =>
      match VaultOfOrder(m, spot, chain)
      case None => d
      case Some(vault) =>
        if amount == 0 then d
        else d.PutAmount(HoldingKey(vault, spot), AsI64(NextHolding(HoldingAt(m.holdings, vault, spot), side, amount)))
  }

  /** Number of following calls the event skips. */
  function Skipped(m: Mem, spot: Spot, op: Op): nat {
    match op
    case SkipIfKnown(chain, count) => if OnchainId(spot, chain) in m.orders.byId then count else 0
    case SkipIfHydrated(count) => if BookAt(m.books, spot).hydrated then count else 0
    case _ => 0
  }

  /** What the task learns from a question: the last price on record is read here, not at the write. */
  function Learned(m: Mem, spot: Spot, op: Op): Option<Hydration> {
    if op.AskNode? then HydrationOf(Get(m.last, spot), op.node) else None
  }

  datatype Exec = Exec(mem: Mem, delta: Delta)

  function OpExec(x: Exec, spot: Spot, op: Op): Exec {
    Exec(OpMem(x.mem, spot, op), OpDelta(x.delta, x.mem, spot, op))
  }

  function RestAfter(m: Mem, spot: Spot, calls: seq<Op>): (rest: seq<Op>)
    requires calls != []
    ensures |rest| < |calls|
  {
    var skip := 1 + Skipped(m, spot, calls[0]);
    var rest := if skip <= |calls| then calls[skip..] else [];
    if calls[0].AskNode? && rest != [] && rest[0].Commit? then rest[0 := Commit(Learned(m, spot, calls[0]))] else rest
  }

  function RunCalls(x: Exec, spot: Spot, calls: seq<Op>): Exec
    decreases |calls|
  {
    if calls == [] then x
    else RunCalls(OpExec(x, spot, calls[0]), spot, RestAfter(x.mem, spot, calls))
  }

  /** The three calls of a hydration with nothing in between. */
  function EnsureHydrated(x: Exec, spot: Spot, node: NodeAnswer): Exec {
    if BookAt(x.mem.books, spot).hydrated then x
    else OpExec(x, spot, Commit(HydrationOf(Get(x.mem.last, spot), node)))
  }

  function RunEvent(x: Exec, spot: Spot, blockNum: u64, e: MarketEvent): Exec {
    RunCalls(x, spot, Calls(spot, blockNum, e))
  }

  function RunEvents(x: Exec, spot: Spot, blockNum: u64, events: seq<MarketEvent>): Exec {
    if events == [] then x
    else RunEvent(RunEvents(x, spot, blockNum, events[..|events| - 1]), spot, blockNum, events[|events| - 1])
  }

  function EventsHistory(x: Exec, spot: Spot, blockNum: u64, events: seq<MarketEvent>): seq<StoredOrder> {
    if events == [] then []
    else
      var rest, e := events[..|events| - 1], events[|events| - 1];
      EventsHistory(x, spot, blockNum, rest) + EventHistory(RunEvents(x, spot, blockNum, rest).mem, spot, e)
  }

  lemma {:induction false} RunNext(x: Exec, spot: Spot, blockNum: u64, events: seq<MarketEvent>, n: nat)
    requires n < |events|
    ensures RunEvents(x, spot, blockNum, events[..n + 1]) ==
            RunEvent(RunEvents(x, spot, blockNum, events[..n]), spot, blockNum, events[n])
    ensures EventsHistory(x, spot, blockNum, events[..n + 1]) ==
            EventsHistory(x, spot, blockNum, events[..n])
            + EventHistory(RunEvents(x, spot, blockNum, events[..n]).mem, spot, events[n])
  {
    assert events[..n + 1][..n] == events[..n];
  }

  // ---- The running code ----

  class IndexState {
    const books: Books
    const orders: OrderIndex
    var lastTradePrice: map<Spot, u64>
    var vaultByAccount: map<string, string>
    var vaultPortfolio: map<string, map<Spot, u64>>

    constructor ()
      ensures fresh(books) && fresh(orders)
      ensures View() == Mem(map[], map[], NO_ORDERS, map[], map[])
    {
      books := new Books();
      orders := new OrderIndex();
      lastTradePrice, vaultByAccount, vaultPortfolio := map[], map[], map[];
    }

    function View(): Mem
      reads this, books, orders
    {
      Mem(books.shards, lastTradePrice, orders.View(), vaultByAccount, vaultPortfolio)
    }

    method RecordLastTradePrice(spot: Spot, price: u64, ws: IndexWriteSet)
      modifies this`lastTradePrice, ws`toStore, ws`toDelete
      ensures View() == OpMem(old(View()), spot, RecordTrade(price))
      ensures ws.Changes() == OpDelta(old(ws.Changes()), old(View()), spot, RecordTrade(price))
    {
      lastTradePrice := lastTradePrice[spot := price];
      ws.Store(LastTradeKey(spot), Amount(AsI64(price)));
    }

    method EnsureChainHydrated(spot: Spot, node: NodeAnswer, ws: IndexWriteSet)
      modifies books, ws`toStore, ws`toDelete
      ensures Exec(View(), ws.Changes()) == EnsureHydrated(old(Exec(View(), ws.Changes())), spot, node)
    {
      if BookAt(books.shards, spot).hydrated {
        return;
      }
      var h := HydrationOf(Get(lastTradePrice, spot), node);
      if h.Some? {
        books.HydrateFromChain(spot, h.value.book, h.value.last, ws);
      }
    }

    /** Looks the order up again after the fill, which may have archived it. */
    method ApplyVaultFill(spot: Spot, chain: string, side: Side, amount: u64, ws: IndexWriteSet)
      modifies this`vaultPortfolio, ws`toStore, ws`toDelete
      ensures View() == OpMem(old(View()), spot, VaultFill(chain, side, amount))
      ensures ws.Changes() == OpDelta(old(ws.Changes()), old(View()), spot, VaultFill(chain, side, amount))
    {
      var id := Find(orders.View(), spot, chain);
      if id.None? {
        return;
      }
      var account := orders.orders[id.value].UserKey();
      if amount == 0 || account !in vaultByAccount {
        return;
      }
      var vault := vaultByAccount[account];
      var held := if vault in vaultPortfolio then vaultPortfolio[vault] else map[];
      var current := if spot in held then held[spot] else 0;
      var next: u64;
      match side {
        case Buy => next := SatAdd(current, amount);
        case Sell => next := if amount > current then 0 else current - amount;
      }
      vaultPortfolio := vaultPortfolio[vault := SetAmount(held, spot, next)];
      ws.StoreVaultPortfolio(vault, spot, AsI64(next));
    }

    method CallBook(spot: Spot, op: BookOp, blockNum: u64, publish: bool, ws: IndexWriteSet)
      modifies books, ws`toStore, ws`toDelete
      ensures Exec(View(), ws.Changes()) == OpExec(old(Exec(View(), ws.Changes())), spot, OnBook(op, blockNum))
    {
      match op {
        case BookCreated(side, price, amount) =>
          var _ := books.ApplyCreated(spot, side, price, amount, blockNum, publish, ws);
        case BookCancelled(side, price, amount) =>
          var _ := books.ApplyCancelled(spot, side, price, amount, blockNum, publish, ws);
        case BookUpdated(side, price, oldAmount, newAmount, remaining) =>
          var _ := books.ApplyUpdated(spot, side, price, oldAmount, newAmount, remaining, blockNum, publish, ws);
        case BookFilled(side, price, amount, lastPrice, timeMs) =>
          var _ := books.ApplyFilled(spot, side, price, amount, blockNum, lastPrice, timeMs, publish, ws);
      }
    }

    method CallOrders(spot: Spot, op: OrderOp, ws: IndexWriteSet)
      modifies orders, ws`toStore, ws`toDelete
      ensures Exec(View(), ws.Changes()) == OpExec(old(Exec(View(), ws.Changes())), spot, OnOrders(op))
      ensures orders.history == old(orders.history) + OpHistory(old(View()).orders, spot, op)
    {
      match op {
        case Insert(order) => orders.InsertOrder(order, ws);
        case Cancel(chain) => orders.UpdateOrderCancelled(spot, chain, ws);
        case Amend(chain, newAmount, remaining) => orders.UpdateOrderAmount(spot, chain, newAmount, remaining, ws);
        case Fill(chain, amount, remaining, full) => orders.UpdateOrderFill(spot, chain, amount, remaining, full, ws);
      }
    }

    method ApplyEvent(spot: Spot, blockNum: u64, e: MarketEvent, publish: bool, ws: IndexWriteSet)
      modifies this, books, orders, ws`toStore, ws`toDelete
      ensures Exec(View(), ws.Changes()) == RunEvent(old(Exec(View(), ws.Changes())), spot, blockNum, e)
      ensures orders.history == old(orders.history) + EventHistory(old(View()), spot, e)
    {
      EventUnfolds(Exec(View(), ws.Changes()), spot, blockNum, e);
      if e.Created? || e.Executed? {
        var known := orders.HasChainOrder(spot, e.chain);
        if known {
          return;
        }
      }
      match e {
        case Created(_, _, side, kind, amount, _, node) =>
          EnsureChainHydrated(spot, node, ws);
          if kind.Limit? {
            CallBook(spot, BookCreated(side, kind.price, amount), blockNum, publish, ws);
          }
          CallOrders(spot, Insert(CreatedOrder(spot, e)), ws);
        case Cancelled(chain, side, price, amount) =>
          CallBook(spot, BookCancelled(side, price, amount), blockNum, publish, ws);
          CallOrders(spot, Cancel(chain), ws);
        case Updated(chain, side, price, oldAmount, newAmount, remaining, node) =>
          EnsureChainHydrated(spot, node, ws);
          CallBook(spot, BookUpdated(side, price, oldAmount, newAmount, remaining), blockNum, publish, ws);
          CallOrders(spot, Amend(chain, newAmount, remaining), ws);
        case Filled(chain, side, price, amount, remaining, full, timeMs, node) =>
          RecordLastTradePrice(spot, price, ws);
          EnsureChainHydrated(spot, node, ws);
          CallBook(spot, BookFilled(side, price, amount, price, timeMs), blockNum, publish, ws);
          CallOrders(spot, Fill(chain, amount, remaining, full), ws);
          ApplyVaultFill(spot, chain, side, amount, ws);
        case Executed(_, _, _, _, _, _, _) =>
          CallOrders(spot, Insert(ExecutedOrder(spot, e)), ws);
      }
    }

    /** One market's task: a fresh write set, filled event by event. */
    method ApplyMarketOrderEvents(spot: Spot, blockNum: u64, events: seq<MarketEvent>, publish: bool)
      returns (ws: IndexWriteSet)
      modifies this, books, orders
      ensures fresh(ws)
      ensures Exec(View(), ws.Changes()) == RunEvents(Exec(old(View()), EMPTY_DELTA), spot, blockNum, events)
      ensures orders.history == old(orders.history) + EventsHistory(Exec(old(View()), EMPTY_DELTA), spot, blockNum, events)
      ensures !ws.fullReplace
    {
      ws := new IndexWriteSet();
      ghost var start, past := Exec(View(), EMPTY_DELTA), orders.history;
      DoneFirst(start, past, spot, blockNum, events);
      for i := 0 to |events|
        invariant fresh(ws) && !ws.fullReplace
        invariant Done(start, past, spot, blockNum, events, i, Exec(View(), ws.Changes()), orders.history)
      {
        DoneNext(start, past, spot, blockNum, events, i, Exec(View(), ws.Changes()), orders.history);
        ApplyEvent(spot, blockNum, events[i], publish, ws);
      }
      DoneAll(start, past, spot, blockNum, events, Exec(View(), ws.Changes()), orders.history);
    }
  }

  lemma GrowsBy<T>(a: seq<T>, b: seq<T>, c: seq<T>)
    ensures a + b + c == a + (b + c)
  {
  }

  /** What the event loop has come to after the first n events. */
  ghost predicate Done(start: Exec, past: seq<StoredOrder>, spot: Spot, blockNum: u64, events: seq<MarketEvent>, n: nat,
                       x: Exec, history: seq<StoredOrder>)
    requires n <= |events|
  {
    && x == RunEvents(start, spot, blockNum, events[..n])
    && history == past + EventsHistory(start, spot, blockNum, events[..n])
  }

  lemma DoneFirst(start: Exec, past: seq<StoredOrder>, spot: Spot, blockNum: u64, events: seq<MarketEvent>)
    ensures Done(start, past, spot, blockNum, events, 0, start, past)
  {
    assert events[..0] == [];
  }

  lemma DoneNext(start: Exec, past: seq<StoredOrder>, spot: Spot, blockNum: u64, events: seq<MarketEvent>, n: nat,
                 x: Exec, history: seq<StoredOrder>)
    requires n < |events| && Done(start, past, spot, blockNum, events, n, x, history)
    ensures Done(start, past, spot, blockNum, events, n + 1, RunEvent(x, spot, blockNum, events[n]),
                 history + EventHistory(x.mem, spot, events[n]))
  {
    RunNext(start, spot, blockNum, events, n);
    GrowsBy(past, EventsHistory(start, spot, blockNum, events[..n]), EventHistory(x.mem, spot, events[n]));
  }

  lemma {:induction false} DoneAll(start: Exec, past: seq<StoredOrder>, spot: Spot, blockNum: u64, events: seq<MarketEvent>,
                x: Exec, history: seq<StoredOrder>)
    requires Done(start, past, spot, blockNum, events, |events|, x, history)
    ensures x == RunEvents(start, spot, blockNum, events)
    ensures history == past + EventsHistory(start, spot, blockNum, events)
  {
    assert events[..|events|] == events;
  }

  /** A call that neither skips nor asks. */
  predicate Plain(op: Op) {
    !op.SkipIfKnown? && !op.SkipIfHydrated? && !op.AskNode?
  }

  lemma {:induction false} RunOne(x: Exec, spot: Spot, op: Op, rest: seq<Op>)
    requires Plain(op)
    ensures RunCalls(x, spot, [op] + rest) == RunCalls(OpExec(x, spot, op), spot, rest)
  {
    assert ([op] + rest)[1..] == rest;
  }

  /** A known chain id ends the event. */
  lemma {:induction false} RunGuard(x: Exec, spot: Spot, chain: string, rest: seq<Op>)
    ensures RunCalls(x, spot, [SkipIfKnown(chain, |rest|)] + rest) ==
            if OnchainId(spot, chain) in x.mem.orders.byId then x else RunCalls(x, spot, rest)
  {
    var calls := [SkipIfKnown(chain, |rest|)] + rest;
    assert calls[1..] == rest && calls[|calls|..] == [];
    assert OpExec(x, spot, calls[0]) == x;
  }

  /** Check, question and write, run without interruption. */
  lemma {:induction false} RunEnsuring(x: Exec, spot: Spot, node: NodeAnswer, rest: seq<Op>)
    ensures RunCalls(x, spot, Ensuring(node) + rest) == RunCalls(EnsureHydrated(x, spot, node), spot, rest)
  {
    var calls := Ensuring(node) + rest;
    var asked, found := calls[1..], Commit(HydrationOf(Get(x.mem.last, spot), node));
    assert OpExec(x, spot, calls[0]) == x;
    if BookAt(x.mem.books, spot).hydrated {
      assert RestAfter(x.mem, spot, calls) == rest;
    } else {
      assert RestAfter(x.mem, spot, calls) == asked;
      assert OpExec(x, spot, asked[0]) == x;
      assert RestAfter(x.mem, spot, asked) == [found] + rest;
      assert RunCalls(x, spot, asked) == RunCalls(x, spot, [found] + rest);
      RunOne(x, spot, found, rest);
    }
  }

  /** The effect of an event, call by call. */
  function Unfolded(x: Exec, spot: Spot, blockNum: u64, e: MarketEvent): Exec {
    match e
    case Created(chain, _, side, kind, amount, _, node) =>
      if OnchainId(spot, chain) in x.mem.orders.byId then x
      else
        var x1 := EnsureHydrated(x, spot, node);
        var x2 := if kind.Limit? then OpExec(x1, spot, OnBook(BookCreated(side, kind.price, amount), blockNum)) else x1;
        OpExec(x2, spot, OnOrders(Insert(CreatedOrder(spot, e))))
    case Cancelled(chain, side, price, amount) =>
      OpExec(OpExec(x, spot, OnBook(BookCancelled(side, price, amount), blockNum)), spot, OnOrders(Cancel(chain)))
    case Updated(chain, side, price, oldAmount, newAmount, remaining, node) =>
      var x1 := EnsureHydrated(x, spot, node);
      var x2 := OpExec(x1, spot, OnBook(BookUpdated(side, price, oldAmount, newAmount, remaining), blockNum));
      OpExec(x2, spot, OnOrders(Amend(chain, newAmount, remaining)))
    case Filled(chain, side, price, amount, remaining, full, timeMs, node) =>
      var x1 := OpExec(x, spot, RecordTrade(price));
      var x2 := EnsureHydrated(x1, spot, node);
      var x3 := OpExec(x2, spot, OnBook(BookFilled(side, price, amount, price, timeMs), blockNum));
      var x4 := OpExec(x3, spot, OnOrders(Fill(chain, amount, remaining, full)));
      OpExec(x4, spot, VaultFill(chain, side, amount))
    case Executed(chain, _, _, _, _, _, _) =>
      if OnchainId(spot, chain) in x.mem.orders.byId then x
      else OpExec(x, spot, OnOrders(Insert(ExecutedOrder(spot, e))))
  }

  lemma LimitUnfolds(x: Exec, spot: Spot, blockNum: u64, e: MarketEvent)
    requires e.Created? && e.kind.Limit?
    ensures RunEvent(x, spot, blockNum, e) == Unfolded(x, spot, blockNum, e)
  {
    var added := OnBook(BookCreated(e.side, e.kind.price, e.amount), blockNum);
    var insert := OnOrders(Insert(CreatedOrder(spot, e)));
    var rest := Ensuring(e.node) + [added, insert];
    assert Calls(spot, blockNum, e) == [SkipIfKnown(e.chain, |rest|)] + rest;
    RunGuard(x, spot, e.chain, rest);
    RunEnsuring(x, spot, e.node, [added, insert]);
    RunTwo(EnsureHydrated(x, spot, e.node), spot, added, insert);
  }

  lemma UnlistedUnfolds(x: Exec, spot: Spot, blockNum: u64, e: MarketEvent)
    requires e.Created? && !e.kind.Limit?
    ensures RunEvent(x, spot, blockNum, e) == Unfolded(x, spot, blockNum, e)
  {
    var insert := OnOrders(Insert(CreatedOrder(spot, e)));
    var rest := Ensuring(e.node) + [insert];
    assert Calls(spot, blockNum, e) == [SkipIfKnown(e.chain, |rest|)] + rest;
    RunGuard(x, spot, e.chain, rest);
    RunEnsuring(x, spot, e.node, [insert]);
    RunLast(EnsureHydrated(x, spot, e.node), spot, insert);
  }

  lemma {:induction false} RunLast(x: Exec, spot: Spot, op: Op)
    requires Plain(op)
    ensures RunCalls(x, spot, [op]) == OpExec(x, spot, op)
  {
    assert [op] + [] == [op];
    RunOne(x, spot, op, []);
  }

  lemma {:induction false} RunTwo(x: Exec, spot: Spot, a: Op, b: Op)
    requires Plain(a) && Plain(b)
    ensures RunCalls(x, spot, [a, b]) == OpExec(OpExec(x, spot, a), spot, b)
  {
    assert [a, b] == [a] + [b];
    RunOne(x, spot, a, [b]);
    RunLast(OpExec(x, spot, a), spot, b);
  }

  lemma {:induction false} RunThree(x: Exec, spot: Spot, a: Op, b: Op, c: Op)
    requires Plain(a) && Plain(b) && Plain(c)
    ensures RunCalls(x, spot, [a, b, c]) == OpExec(OpExec(OpExec(x, spot, a), spot, b), spot, c)
  {
    assert [a, b, c] == [a] + [b, c];
    RunOne(x, spot, a, [b, c]);
    RunTwo(OpExec(x, spot, a), spot, b, c);
  }

  lemma UpdatedUnfolds(x: Exec, spot: Spot, blockNum: u64, e: MarketEvent)
    requires e.Updated?
    ensures RunEvent(x, spot, blockNum, e) == Unfolded(x, spot, blockNum, e)
  {
    var edited := OnBook(BookUpdated(e.side, e.price, e.oldAmount, e.newAmount, e.remaining), blockNum);
    var amended := OnOrders(Amend(e.chain, e.newAmount, e.remaining));
    RunEnsuring(x, spot, e.node, [edited, amended]);
    RunTwo(EnsureHydrated(x, spot, e.node), spot, edited, amended);
  }

  lemma FilledCalls(spot: Spot, blockNum: u64, e: MarketEvent, edited: Op, filled: Op, credited: Op)
    requires e.Filled? && edited == OnBook(BookFilled(e.side, e.price, e.amount, e.price, e.timeMs), blockNum)
    requires filled == OnOrders(Fill(e.chain, e.amount, e.remaining, e.full)) && credited == VaultFill(e.chain, e.side, e.amount)
    ensures Calls(spot, blockNum, e) == [RecordTrade(e.price)] + (Ensuring(e.node) + [edited, filled, credited])
  {
  }

  /** A plain call, a hydration and three plain calls. */
  lemma {:induction false} FilledRun(x: Exec, spot: Spot, node: NodeAnswer, first: Op, a: Op, b: Op, c: Op)
    requires Plain(first) && Plain(a) && Plain(b) && Plain(c)
    ensures RunCalls(x, spot, [first] + (Ensuring(node) + [a, b, c])) ==
            OpExec(OpExec(OpExec(EnsureHydrated(OpExec(x, spot, first), spot, node), spot, a), spot, b), spot, c)
  {
    var started := OpExec(x, spot, first);
    RunOne(x, spot, first, Ensuring(node) + [a, b, c]);
    RunEnsuring(started, spot, node, [a, b, c]);
    RunThree(EnsureHydrated(started, spot, node), spot, a, b, c);
  }

  lemma FilledUnfolds(x: Exec, spot: Spot, blockNum: u64, e: MarketEvent)
    requires e.Filled?
    ensures RunEvent(x, spot, blockNum, e) == Unfolded(x, spot, blockNum, e)
  {
    var edited := OnBook(BookFilled(e.side, e.price, e.amount, e.price, e.timeMs), blockNum);
    var filled, credited := OnOrders(Fill(e.chain, e.amount, e.remaining, e.full)), VaultFill(e.chain, e.side, e.amount);
    FilledCalls(spot, blockNum, e, edited, filled, credited);
    FilledRun(x, spot, e.node, RecordTrade(e.price), edited, filled, credited);
  }

  lemma EventUnfolds(x: Exec, spot: Spot, blockNum: u64, e: MarketEvent)
    ensures RunEvent(x, spot, blockNum, e) == Unfolded(x, spot, blockNum, e)
  {
    match e {
      case Created(_, _, _, kind, _, _, _) =>
        if kind.Limit? {
          LimitUnfolds(x, spot, blockNum, e);
        } else {
          UnlistedUnfolds(x, spot, blockNum, e);
        }
      case Cancelled(chain, side, price, amount) =>
        var edited, cancelled := OnBook(BookCancelled(side, price, amount), blockNum), OnOrders(Cancel(chain));
        RunTwo(x, spot, edited, cancelled);
      case Updated(_, _, _, _, _, _, _) => UpdatedUnfolds(x, spot, blockNum, e);
      case Filled(_, _, _, _, _, _, _, _) => FilledUnfolds(x, spot, blockNum, e);
      case Executed(chain, _, _, _, _, _, _) =>
        var insert := OnOrders(Insert(ExecutedOrder(spot, e)));
        assert Calls(spot, blockNum, e) == [SkipIfKnown(chain, 1)] + [insert];
        RunGuard(x, spot, chain, [insert]);
        RunLast(x, spot, insert);
    }
  }
}
