/**
 What one event of a market does, end to end (src/indexer/processor.rs): to the levels and prices of the book,
 to the orders and their history, and to what vaults hold, in plain integers.
 */
module EventEffects {
  import opened Ints
  import opened WriteSets
  import opened Books
  import opened BookRuns
  import opened Formatting
  import opened OrderIndex
  import opened OrderRuns
  import opened Processor
  import Grouping
  import opened Text

  // ---- Hydration ----

  /** The last positive quote at a price. */
  predicate IsLastQuote(quotes: seq<ChainLevel>, i: nat, price: u64) {
    && i < |quotes| && quotes[i].price == price && quotes[i].quantity > 0
    && forall j :: i < j < |quotes| && quotes[j].price == price ==> quotes[j].quantity == 0
  }

  /** The size is that of the last positive quote at the price, or zero where there is none. */
  ghost predicate IsQuoted(quotes: seq<ChainLevel>, price: u64, size: u64) {
    || (exists i: nat :: IsLastQuote(quotes, i, price) && quotes[i].quantity == size)
    || (size == 0 && forall j :: 0 <= j < |quotes| && quotes[j].price == price ==> quotes[j].quantity == 0)
  }

  function SizeIn(levels: Levels, price: u64): u64 {
    if price in levels then levels[price] else 0
  }

  lemma {:induction false} LevelsAreQuoted(quotes: seq<ChainLevel>, price: u64)
    ensures IsQuoted(quotes, price, SizeIn(InsertLevels(map[], quotes), price))
  {
    if quotes != [] {
      var rest, last := quotes[..|quotes| - 1], |quotes| - 1;
      LevelsAreQuoted(rest, price);
      if quotes[last].price == price && quotes[last].quantity > 0 {
        assert IsLastQuote(quotes, last, price);
      } else if i: nat :| IsLastQuote(rest, i, price) && rest[i].quantity == SizeIn(InsertLevels(map[], rest), price) {
        assert IsLastQuote(quotes, i, price);
      }
    }
  }

  /** The node gave a book, and a last price is on record or the node told of one or of none. */
  predicate Informed(last: map<Spot, u64>, spot: Spot, node: NodeAnswer) {
    node.NodeBook? && (spot in last || node.info.Info?)
  }

  /** The node's bids are the bids, its asks the asks; the number moves on and the trades stay. */
  ghost predicate TakesBook(b: Book, c: Book, chain: ChainBook) {
    && (forall price :: IsQuoted(chain.bids, price, SizeIn(c.bids, price)))
    && (forall price :: IsQuoted(chain.asks, price, SizeIn(c.asks, price)))
    && c.hydrated && c.sequence == Clamped(b.sequence + 1) && c.lastFill == b.lastFill && c.trades == b.trades
  }

  /** All the markets but one keep their books. */
  ghost predicate OthersKeep(m: Mem, y: Mem, spot: Spot) {
    forall other :: other != spot ==> BookAt(y.books, other) == BookAt(m.books, other)
  }

  lemma HydrateTakes(b: Book, chain: ChainBook, last: Option<u64>)
    ensures TakesBook(b, HydrateBook(b, chain, last), chain)
  {
    forall price
      ensures IsQuoted(chain.bids, price, SizeIn(HydrateBook(b, chain, last).bids, price))
      ensures IsQuoted(chain.asks, price, SizeIn(HydrateBook(b, chain, last).asks, price))
    {
      LevelsAreQuoted(chain.bids, price);
      LevelsAreQuoted(chain.asks, price);
    }
  }

  /** The book a market takes from the node, and the price: the one on record, else the node's, else the old one. */
  ghost predicate TakesAnswer(m: Mem, y: Mem, spot: Spot, node: NodeAnswer)
    requires Informed(m.last, spot, node)
  {
    var b, c := BookAt(m.books, spot), BookAt(y.books, spot);
    && TakesBook(b, c, node.book)
    && c.lastPrice == (if spot in m.last then Some(m.last[spot])
                       else if node.info.lastPrice.Some? then node.info.lastPrice else b.lastPrice)
    && y == m.(books := y.books) && OthersKeep(m, y, spot)
  }

  /** The price that goes with an answer. */
  function PriceOf(last: map<Spot, u64>, spot: Spot, node: NodeAnswer): Option<u64>
    requires Informed(last, spot, node)
  {
    if spot in last then Some(last[spot]) else node.info.lastPrice
  }

  lemma AnswerIs(last: map<Spot, u64>, spot: Spot, node: NodeAnswer)
    ensures HydrationOf(Get(last, spot), node) ==
            if Informed(last, spot, node) then Some(Hydration(node.book, PriceOf(last, spot, node))) else None
  {
  }

  lemma CommitIs(x: Exec, spot: Spot, found: Option<Hydration>)
    ensures found.None? ==> OpExec(x, spot, Commit(found)) == x
    ensures found.Some? ==>
              OpExec(x, spot, Commit(found)).mem ==
              x.mem.(books := x.mem.books[spot := HydrateBook(BookAt(x.mem.books, spot), found.value.book, found.value.last)])
  {
  }

  /** Hydrating again, as an unmapped event does, takes the answer in whatever state the market is. */
  lemma RehydrationTells(x: Exec, r: Grouping.Rehydration)
    ensures var y := Grouping.RehydrateOne(x, r);
            if Informed(x.mem.last, r.spot, r.node) then TakesAnswer(x.mem, y.mem, r.spot, r.node) else y == x
  {
    AnswerIs(x.mem.last, r.spot, r.node);
    CommitIs(x, r.spot, HydrationOf(Get(x.mem.last, r.spot), r.node));
    if Informed(x.mem.last, r.spot, r.node) {
      HydrateTakes(BookAt(x.mem.books, r.spot), r.node.book, PriceOf(x.mem.last, r.spot, r.node));
    }
  }

  /**
   Ensuring a hydration takes the answer of the node; for a hydrated market, or when the node is down or the price it
   would have to tell is, nothing changes.
   */
  lemma HydrationTells(x: Exec, spot: Spot, node: NodeAnswer)
    ensures var y := EnsureHydrated(x, spot, node);
            if BookAt(x.mem.books, spot).hydrated || !Informed(x.mem.last, spot, node) then y == x
            else TakesAnswer(x.mem, y.mem, spot, node)
  {
    RehydrationTells(x, Grouping.Rehydration(spot, node));
  }

  // ---- The calls of an event, one by one ----

  /** The level change an operation makes to a size, in plain integers. */
  function Moves(op: BookOp): int {
    if op.price == 0 then 0
    else
      match op
      case BookCreated(_, _, amount) => amount
      case BookCancelled(_, _, amount) => 0 - amount
      case BookFilled(_, _, amount, _, _) => 0 - amount
      case BookUpdated(_, _, oldAmount, newAmount, remaining) => remaining - OldLeft(oldAmount, newAmount, remaining)
  }

  /** What was left of the order before an amendment: the old amount less what is filled, which is never below zero. */
  function OldLeft(oldAmount: int, newAmount: int, remaining: int): int {
    var filled := if newAmount > remaining then newAmount - remaining else 0;
    if oldAmount > filled then oldAmount - filled else 0
  }

  ghost predicate SizesMove(b: Book, c: Book, side: Side, price: u64, step: int) {
    forall s: Side, p: u64 ::
      c.Size(s, p) == if s == side && p == price then Clamped(b.Size(s, p) + step) else b.Size(s, p)
  }

  /** A fill that takes something sets the price and the latest fill, and is listed unless it repeats the latest. */
  ghost predicate FillTells(b: Book, c: Book, s: BookStep) {
    if Fills(s) then
      && c.lastPrice == Some(s.op.lastPrice) && c.lastFill == Some(FillKey(s.blockNum, s.op.price, s.op.amount))
      && (if b.lastFill == c.lastFill then c.trades == b.trades else |b.trades| <= 50 ==> BookRuns.Listed(c.trades, s, b.trades))
    else c.lastPrice == b.lastPrice && c.lastFill == b.lastFill && c.trades == b.trades
  }

  ghost predicate BookTells(b: Book, c: Book, op: BookOp, blockNum: u64) {
    && SizesMove(b, c, op.side, op.price, Moves(op)) && c.hydrated == b.hydrated
    && c.sequence == Clamped(b.sequence + if Moves(op) == 0 then 0 else 1)
    && FillTells(b, c, Operation(op, blockNum))
  }

  lemma MovesTell(op: BookOp)
    ensures EditOf(op) == (if Moves(op) == 0 then None
                           else if Moves(op) > 0 then Some(Edit(Moves(op), true)) else Some(Edit(-Moves(op), false)))
  {
  }

  lemma SizesTell(b: Book, op: BookOp, blockNum: u64)
    ensures SizesMove(b, BookRuns.Next(b, Operation(op, blockNum)), op.side, op.price, Moves(op))
  {
    MovesTell(op);
    if EditOf(op).Some? {
      OpLevels(b, op, blockNum, Buy);
      OpLevels(b, op, blockNum, Sell);
    }
  }

  lemma FillsTell(b: Book, s: BookStep)
    requires s.Operation?
    ensures FillTells(b, BookRuns.Next(b, s), s)
  {
    NextPrice(b, s);
    NextFill(b, s);
    if Fills(s) {
      assert Brings(s, s.op.lastPrice);
      if |b.trades| <= 50 {
        TradeListed(b, s);
      } else {
        FillMakes(b, s);
      }
    }
  }

  lemma NumberTells(b: Book, op: BookOp, blockNum: u64)
    ensures var c := BookRuns.Next(b, Operation(op, blockNum));
            c.hydrated == b.hydrated && c.sequence == Clamped(b.sequence + if Moves(op) == 0 then 0 else 1)
  {
    MovesTell(op);
  }

  lemma CallIsStep(x: Exec, spot: Spot, op: BookOp, blockNum: u64)
    ensures var y := OpExec(x, spot, OnBook(op, blockNum)).mem;
            && BookAt(y.books, spot) == BookRuns.Next(BookAt(x.mem.books, spot), Operation(op, blockNum))
            && OthersKeep(x.mem, y, spot) && y == x.mem.(books := y.books)
  {
  }

  lemma BookCallTells(x: Exec, spot: Spot, op: BookOp, blockNum: u64)
    ensures var y := OpExec(x, spot, OnBook(op, blockNum)).mem;
            && BookTells(BookAt(x.mem.books, spot), BookAt(y.books, spot), op, blockNum)
            && OthersKeep(x.mem, y, spot) && y == x.mem.(books := y.books)
  {
    var b := BookAt(x.mem.books, spot);
    CallIsStep(x, spot, op, blockNum);
    SizesTell(b, op, blockNum);
    NumberTells(b, op, blockNum);
    FillsTell(b, Operation(op, blockNum));
  }

  // ---- The book after an event ----

  /** The event finds a market that is not hydrated, asks the node, and learns what it needs. */
  predicate Hydrates(m: Mem, spot: Spot, e: MarketEvent) {
    && (e.Created? || e.Updated? || e.Filled?) && !AlreadyKnown(m, spot, e) && !BookAt(m.books, spot).hydrated
    && e.node.NodeBook? && (e.Filled? || spot in m.last || e.node.info.Info?)
  }

  /** The price a hydrated book starts from: that of the fill itself, else the one on record, else the node's. */
  function PriceLearned(m: Mem, spot: Spot, e: MarketEvent): Option<u64>
    requires Hydrates(m, spot, e)
  {
    if e.Filled? then Some(e.price)
    else if spot in m.last then Some(m.last[spot])
    else if e.node.info.lastPrice.Some? then e.node.info.lastPrice
    else BookAt(m.books, spot).lastPrice
  }

  /** The book before the level change: what the node gave, or the book as it was. */
  ghost predicate StartsFrom(m: Mem, spot: Spot, e: MarketEvent, h: Book) {
    var b := BookAt(m.books, spot);
    if Hydrates(m, spot, e) then TakesBook(b, h, e.node.book) && h.lastPrice == PriceLearned(m, spot, e) else h == b
  }

  lemma Ensured(x: Exec, spot: Spot, e: MarketEvent) returns (h: Book)
    requires (e.Created? || e.Updated?) && !AlreadyKnown(x.mem, spot, e)
    ensures var y := EnsureHydrated(x, spot, e.node).mem;
            && h == BookAt(y.books, spot) && StartsFrom(x.mem, spot, e, h)
            && OthersKeep(x.mem, y, spot) && y == x.mem.(books := y.books)
  {
    HydrationTells(x, spot, e.node);
    h := BookAt(EnsureHydrated(x, spot, e.node).mem.books, spot);
  }

  lemma EnsuredFill(x: Exec, spot: Spot, e: MarketEvent) returns (h: Book)
    requires e.Filled?
    ensures var recorded := x.mem.(last := x.mem.last[spot := e.price]);
            var y := EnsureHydrated(OpExec(x, spot, RecordTrade(e.price)), spot, e.node).mem;
            && h == BookAt(y.books, spot) && StartsFrom(x.mem, spot, e, h)
            && OthersKeep(x.mem, y, spot) && y == recorded.(books := y.books)
  {
    var z := OpExec(x, spot, RecordTrade(e.price));
    HydrationTells(z, spot, e.node);
    h := BookAt(EnsureHydrated(z, spot, e.node).mem.books, spot);
  }

  /** The level change an event makes to the book it starts from. */
  ghost predicate BookFollows(m: Mem, spot: Spot, blockNum: u64, e: MarketEvent, h: Book, c: Book) {
    match e
    case Created(_, _, side, kind, amount, _, _) =>
      if kind.Limit? && !AlreadyKnown(m, spot, e) then BookTells(h, c, BookCreated(side, kind.price, amount), blockNum) else c == h
    case Cancelled(_, side, price, amount) => BookTells(h, c, BookCancelled(side, price, amount), blockNum)
    case Updated(_, side, price, oldAmount, newAmount, remaining, _) =>
      BookTells(h, c, BookUpdated(side, price, oldAmount, newAmount, remaining), blockNum)
    case Filled(_, side, price, amount, _, _, timeMs, _) =>
      BookTells(h, c, BookFilled(side, price, amount, price, timeMs), blockNum)
    case Executed(_, _, _, _, _, _, _) => c == h
  }

  ghost predicate BookAfter(m: Mem, y: Mem, spot: Spot, blockNum: u64, e: MarketEvent, h: Book) {
    && StartsFrom(m, spot, e, h) && BookFollows(m, spot, blockNum, e, h, BookAt(y.books, spot))
    && OthersKeep(m, y, spot)
    && y.last == if e.Filled? then m.last[spot := e.price] else m.last
  }

  lemma OthersKeepOn(m: Mem, y: Mem, z: Mem, spot: Spot)
    requires OthersKeep(m, y, spot) && OthersKeep(y, z, spot)
    ensures OthersKeep(m, z, spot)
  {
  }

  lemma CreatedBook(x: Exec, spot: Spot, blockNum: u64, e: MarketEvent) returns (h: Book)
    requires e.Created?
    ensures BookAfter(x.mem, RunEvent(x, spot, blockNum, e).mem, spot, blockNum, e, h)
  {
    EventUnfolds(x, spot, blockNum, e);
    if AlreadyKnown(x.mem, spot, e) {
      h := BookAt(x.mem.books, spot);
    } else {
      h := Ensured(x, spot, e);
      if e.kind.Limit? {
        var x1 := EnsureHydrated(x, spot, e.node);
        var op := BookCreated(e.side, e.kind.price, e.amount);
        BookCallTells(x1, spot, op, blockNum);
        OthersKeepOn(x.mem, x1.mem, OpExec(x1, spot, OnBook(op, blockNum)).mem, spot);
      }
    }
  }

  lemma UpdatedBook(x: Exec, spot: Spot, blockNum: u64, e: MarketEvent) returns (h: Book)
    requires e.Updated?
    ensures BookAfter(x.mem, RunEvent(x, spot, blockNum, e).mem, spot, blockNum, e, h)
  {
    EventUnfolds(x, spot, blockNum, e);
    h := Ensured(x, spot, e);
    var x1 := EnsureHydrated(x, spot, e.node);
    var op := BookUpdated(e.side, e.price, e.oldAmount, e.newAmount, e.remaining);
    BookCallTells(x1, spot, op, blockNum);
    OthersKeepOn(x.mem, x1.mem, OpExec(x1, spot, OnBook(op, blockNum)).mem, spot);
  }

  lemma FilledBookAfter(x: Exec, spot: Spot, blockNum: u64, e: MarketEvent) returns (h: Book)
    requires e.Filled?
    ensures BookAfter(x.mem, RunEvent(x, spot, blockNum, e).mem, spot, blockNum, e, h)
  {
    EventUnfolds(x, spot, blockNum, e);
    h := EnsuredFill(x, spot, e);
    var x2 := EnsureHydrated(OpExec(x, spot, RecordTrade(e.price)), spot, e.node);
    var op := BookFilled(e.side, e.price, e.amount, e.price, e.timeMs);
    BookCallTells(x2, spot, op, blockNum);
    var x3 := OpExec(x2, spot, OnBook(op, blockNum));
    OthersKeepOn(x.mem, x2.mem, x3.mem, spot);
    FillTail(x3, spot, e);
  }

  /** The last two calls of a fill leave books and prices alone. */
  lemma FillTail(x: Exec, spot: Spot, e: MarketEvent)
    requires e.Filled?
    ensures var x1 := OpExec(x, spot, OnOrders(Fill(e.chain, e.amount, e.remaining, e.full)));
            var y := OpExec(x1, spot, VaultFill(e.chain, e.side, e.amount)).mem;
            && y.books == x.mem.books && y.last == x.mem.last
            && y.orders == OpOrders(x.mem.orders, spot, Fill(e.chain, e.amount, e.remaining, e.full))
            && y.vaultOf == x.mem.vaultOf
  {
  }

  /**
   After any event the levels are those the book started from, the node's where the event hydrates the market, moved
   by the event's amount at its side and price and brought into 64 bits; price, number, latest fill and trades follow,
   and no other market moves.
   */
  lemma EventBook(x: Exec, spot: Spot, blockNum: u64, e: MarketEvent) returns (h: Book)
    ensures BookAfter(x.mem, RunEvent(x, spot, blockNum, e).mem, spot, blockNum, e, h)
  {
    match e {
      case Created(_, _, _, _, _, _, _) => h := CreatedBook(x, spot, blockNum, e);
      case Updated(_, _, _, _, _, _, _) => h := UpdatedBook(x, spot, blockNum, e);
      case Filled(_, _, _, _, _, _, _, _) => h := FilledBookAfter(x, spot, blockNum, e);
      case Cancelled(chain, side, price, amount) =>
        EventUnfolds(x, spot, blockNum, e);
        h := BookAt(x.mem.books, spot);
        BookCallTells(x, spot, BookCancelled(side, price, amount), blockNum);
      case Executed(_, _, _, _, _, _, _) =>
        EventUnfolds(x, spot, blockNum, e);
        h := BookAt(x.mem.books, spot);
    }
  }

  // ---- The orders after an event ----

  /** The order of a new event: untouched and open, at the limit, at the trigger's limit, or at zero. */
  ghost predicate IsNewOrder(spot: Spot, e: MarketEvent, s: StoredOrder)
    requires e.Created?
  {
    && s.id == V5(spot, e.chain) && s.Key() == OnchainId(spot, e.chain) && s.user == e.user && s.caption == e.caption
    && s.size == e.amount && s.filled == 0 && s.status == Open && s.side == e.side
    && s.price == match e.kind case Limit(p) => p case Market => 0 case Trigger(p) => p
  }

  /** An order that only shows up when it is over: filled if all of a positive amount is, cancelled otherwise. */
  ghost predicate IsEndedOrder(spot: Spot, e: MarketEvent, s: StoredOrder)
    requires e.Executed?
  {
    && s.id == V5(spot, e.chain) && s.Key() == OnchainId(spot, e.chain) && s.user == e.user && s.caption == e.caption
    && s.size == e.amount && s.filled == e.filled && s.side == e.side
    && (s.status == Status.Filled <==> 0 < e.filled && e.amount <= e.filled)
    && (s.status == Status.Cancelled <==> e.filled == 0 || e.filled < e.amount)
    && s.price == if e.avgPrice.Some? then e.avgPrice.value else 0
  }

  /** What an event asks of the orders. */
  ghost predicate Asks(spot: Spot, e: MarketEvent, op: OrderOp) {
    match e
    case Created(_, _, _, _, _, _, _) => op.Insert? && IsNewOrder(spot, e, op.order)
    case Executed(_, _, _, _, _, _, _) => op.Insert? && IsEndedOrder(spot, e, op.order)
    case Cancelled(chain, _, _, _) => op == Cancel(chain)
    case Updated(chain, _, _, _, newAmount, remaining, _) => op == Amend(chain, newAmount, remaining)
    case Filled(chain, _, _, amount, remaining, full, _, _) => op == Fill(chain, amount, remaining, full)
  }

  lemma EnsuringKeeps(x: Exec, spot: Spot, node: NodeAnswer)
    ensures var y := EnsureHydrated(x, spot, node).mem; y == x.mem.(books := y.books)
  {
  }

  /** The memory in which the vault of a fill is looked up. */
  function BeforeVault(x: Exec, spot: Spot, blockNum: u64, e: MarketEvent): Exec
    requires e.Filled?
  {
    var x2 := EnsureHydrated(OpExec(x, spot, RecordTrade(e.price)), spot, e.node);
    var x3 := OpExec(x2, spot, OnBook(BookFilled(e.side, e.price, e.amount, e.price, e.timeMs), blockNum));
    OpExec(x3, spot, OnOrders(Fill(e.chain, e.amount, e.remaining, e.full)))
  }

  lemma BeforeVaultTells(x: Exec, spot: Spot, blockNum: u64, e: MarketEvent)
    requires e.Filled?
    ensures var z := BeforeVault(x, spot, blockNum, e).mem;
            && z.orders == OpOrders(x.mem.orders, spot, Fill(e.chain, e.amount, e.remaining, e.full))
            && z.holdings == x.mem.holdings && z.vaultOf == x.mem.vaultOf
  {
    EnsuringKeeps(OpExec(x, spot, RecordTrade(e.price)), spot, e.node);
  }

  lemma VaultLeavesOrders(x: Exec, spot: Spot, chain: string, side: Side, amount: u64)
    ensures var y := OpExec(x, spot, VaultFill(chain, side, amount)).mem;
            y.orders == x.mem.orders && y.vaultOf == x.mem.vaultOf
  {
  }

  lemma FilledOrders(x: Exec, spot: Spot, blockNum: u64, e: MarketEvent)
    requires e.Filled?
    ensures var y, z := RunEvent(x, spot, blockNum, e), BeforeVault(x, spot, blockNum, e);
            && y == OpExec(z, spot, VaultFill(e.chain, e.side, e.amount))
            && y.mem.orders == z.mem.orders == OpOrders(x.mem.orders, spot, Fill(e.chain, e.amount, e.remaining, e.full))
            && z.mem.holdings == x.mem.holdings && y.mem.vaultOf == z.mem.vaultOf == x.mem.vaultOf
  {
    EventUnfolds(x, spot, blockNum, e);
    BeforeVaultTells(x, spot, blockNum, e);
    VaultLeavesOrders(BeforeVault(x, spot, blockNum, e), spot, e.chain, e.side, e.amount);
  }

  /** What an event that fills nothing leaves of orders, vault accounts and holdings. */
  ghost predicate OrdersFollow(m: Mem, y: Mem, spot: Spot, e: MarketEvent) {
    && y.orders == (if AlreadyKnown(m, spot, e) then m.orders else OpOrders(m.orders, spot, OrderPart(spot, e)))
    && y.vaultOf == m.vaultOf && y.holdings == m.holdings
  }

  lemma CreatedOrders(x: Exec, spot: Spot, blockNum: u64, e: MarketEvent)
    requires e.Created?
    ensures OrdersFollow(x.mem, Unfolded(x, spot, blockNum, e).mem, spot, e)
  {
    EnsuringKeeps(x, spot, e.node);
  }

  lemma UpdatedOrders(x: Exec, spot: Spot, blockNum: u64, e: MarketEvent)
    requires e.Updated?
    ensures OrdersFollow(x.mem, Unfolded(x, spot, blockNum, e).mem, spot, e)
  {
    EnsuringKeeps(x, spot, e.node);
  }

  lemma OtherOrders(x: Exec, spot: Spot, blockNum: u64, e: MarketEvent)
    requires !e.Filled?
    ensures OrdersFollow(x.mem, RunEvent(x, spot, blockNum, e).mem, spot, e)
  {
    EventUnfolds(x, spot, blockNum, e);
    match e
    case Created(_, _, _, _, _, _, _) => CreatedOrders(x, spot, blockNum, e);
    case Updated(_, _, _, _, _, _, _) => UpdatedOrders(x, spot, blockNum, e);
    case _ =>
  }

  /**
   One event is one step of the orders and their history: the one its fields tell; a new order whose chain id is
   known is passed over.
   */
  lemma EventOrders(x: Exec, spot: Spot, blockNum: u64, e: MarketEvent, history: seq<StoredOrder>) returns (op: OrderOp)
    ensures Asks(spot, e, op)
    ensures var y := RunEvent(x, spot, blockNum, e).mem;
            Ledger(y.orders, history + EventHistory(x.mem, spot, e)) ==
            if (e.Created? || e.Executed?) && OnchainId(spot, e.chain) in x.mem.orders.byId then Ledger(x.mem.orders, history)
            else OrderRuns.Next(Ledger(x.mem.orders, history), OrderStep(spot, op))
  {
    if e.Filled? {
      FilledOrders(x, spot, blockNum, e);
    } else {
      OtherOrders(x, spot, blockNum, e);
    }
    op := OrderPart(spot, e);
  }

  /** A fill event of a positive amount, or one that ends its order. */
  predicate FillsSomething(e: MarketEvent) {
    e.Filled? ==> e.amount > 0 || e.remaining == 0 || e.full
  }

  lemma EventStatus(x: Exec, spot: Spot, blockNum: u64, e: MarketEvent)
    requires AllTell(x.mem.orders.orders) && FillsSomething(e)
    ensures AllTell(RunEvent(x, spot, blockNum, e).mem.orders.orders)
  {
    var op := EventOrders(x, spot, blockNum, e, []);
    StepStatus(Ledger(x.mem.orders, []), OrderStep(spot, op));
  }

  /** What the statuses tell after the first n events. */
  ghost predicate TellAfter(x: Exec, spot: Spot, blockNum: u64, events: seq<MarketEvent>, n: nat)
    requires n <= |events|
  {
    AllTell(RunEvents(x, spot, blockNum, events[..n]).mem.orders.orders)
  }

  lemma TellNext(x: Exec, spot: Spot, blockNum: u64, events: seq<MarketEvent>, n: nat)
    requires n < |events| && TellAfter(x, spot, blockNum, events, n) && FillsSomething(events[n])
    ensures TellAfter(x, spot, blockNum, events, n + 1)
  {
    RunNext(x, spot, blockNum, events, n);
    EventStatus(RunEvents(x, spot, blockNum, events[..n]), spot, blockNum, events[n]);
  }

  /** Over all events of a market, each hot order is open while nothing is filled and partially filled from then on. */
  lemma {:induction false} EventsStatus(x: Exec, spot: Spot, blockNum: u64, events: seq<MarketEvent>)
    requires AllTell(x.mem.orders.orders) && forall i :: 0 <= i < |events| ==> FillsSomething(events[i])
    ensures AllTell(RunEvents(x, spot, blockNum, events).mem.orders.orders)
  {
    assert events[..0] == [];
    for i := 0 to |events|
      invariant TellAfter(x, spot, blockNum, events, i)
    {
      TellNext(x, spot, blockNum, events, i);
    }
    assert events[..|events|] == events;
  }

  // ---- What vaults hold after an event ----

  /** What a vault holds of a market; an amount of zero is not on record. */
  function Held(m: Mem, vault: string, spot: Spot): Option<u64> {
    if vault in m.holdings && spot in m.holdings[vault] then Some(m.holdings[vault][spot]) else None
  }

  /** The order is hot, and its user is the account a vault trades through. */
  ghost predicate HotForVault(m: Mem, spot: Spot, chain: string, vault: string) {
    var k := OnchainId(spot, chain);
    && k in m.orders.byId && m.orders.byId[k] in m.orders.orders
    && var account := AddressKey(m.orders.orders[m.orders.byId[k]].user);
       account in m.vaultOf && m.vaultOf[account] == vault
  }

  /** The amount a vault is left with: bought is added, sold is taken off, within 64 bits, and zero is no entry. */
  function LeftWith(held: Option<u64>, side: Side, amount: u64): Option<u64> {
    var before := if held.Some? then held.value else 0;
    var n := Clamped(if side.Buy? then before + amount else before - amount);
    if n == 0 then None else Some(n)
  }

  lemma VaultCallTells(x: Exec, spot: Spot, chain: string, side: Side, amount: u64)
    ensures var m, y := x.mem, OpExec(x, spot, VaultFill(chain, side, amount)).mem;
            && (forall vault :: HotForVault(m, spot, chain, vault) && amount > 0 ==>
                  forall v, s :: Held(y, v, s) == if v == vault && s == spot then LeftWith(Held(m, v, s), side, amount)
                                                  else Held(m, v, s))
            && ((forall vault :: !HotForVault(m, spot, chain, vault)) || amount == 0 ==> y == m)
  {
    var m := x.mem;
    if amount > 0 && VaultOfOrder(m, spot, chain).Some? {
      assert HotForVault(m, spot, chain, VaultOfOrder(m, spot, chain).value);
    }
  }

  /** A fill that ends its order leaves no hot order under its composite id. */
  lemma EndedIsCold(m: Mem, y: Mem, spot: Spot, e: MarketEvent, vault: string)
    requires e.Filled? && (e.full || e.remaining == 0)
    requires y.orders == OpOrders(m.orders, spot, Fill(e.chain, e.amount, e.remaining, e.full))
    ensures !HotForVault(y, spot, e.chain, vault)
  {
  }

  /**
   A fill of a positive amount whose order is still hot afterwards, and whose user is a vault's account, moves what
   that vault holds of that market and nothing else: up on a buy, down on a sell, within 64 bits. Any other event
   moves no holding; a fill that ends its order is one of those.
   */
  lemma EventHoldings(x: Exec, spot: Spot, blockNum: u64, e: MarketEvent)
    ensures var m, y := x.mem, RunEvent(x, spot, blockNum, e).mem;
            && y.vaultOf == m.vaultOf
            && (e.Filled? && e.amount > 0 ==>
                  forall vault :: HotForVault(y, spot, e.chain, vault) ==>
                    forall v, s :: Held(y, v, s) == if v == vault && s == spot then LeftWith(Held(m, v, s), e.side, e.amount)
                                                    else Held(m, v, s))
            && (!e.Filled? || e.amount == 0 || (forall vault :: !HotForVault(y, spot, e.chain, vault)) ==>
                  y.holdings == m.holdings)
            && (e.Filled? && (e.full || e.remaining == 0) ==> y.holdings == m.holdings)
  {
    if e.Filled? {
      var y, z := RunEvent(x, spot, blockNum, e).mem, BeforeVault(x, spot, blockNum, e);
      FilledOrders(x, spot, blockNum, e);
      VaultCallTells(z, spot, e.chain, e.side, e.amount);
      forall vault
        ensures HotForVault(z.mem, spot, e.chain, vault) <==> HotForVault(y, spot, e.chain, vault)
        ensures e.full || e.remaining == 0 ==> !HotForVault(y, spot, e.chain, vault)
      {
        if e.full || e.remaining == 0 {
          EndedIsCold(x.mem, y, spot, e, vault);
        }
      }
    } else {
      OtherOrders(x, spot, blockNum, e);
    }
  }
}
