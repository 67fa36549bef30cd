/**
 The store mirrors memory: applying the rows collected while processing events to tables that mirrored
 the old memory gives tables that mirror the new one.
 */
module Mirror {
  import opened Ints
  import opened WriteSets
  import opened Books
  import opened OrderIndex
  import opened Processor

  /** An amount is stored as a signed 64-bit number, and only when that number is positive. */
  function AmountRow(raw: u64): Option<RowVal> {
    if AsI64(raw) > 0 then Some(Amount(AsI64(raw))) else None
  }

  /** Markets and vaults are written by global events, not by order events. */
  predicate InScope(k: RowKey) {
    !k.MarketKey? && !k.VaultKey?
  }

  /** The row that stands for memory at a key. */
  function Persisted(m: Mem, k: RowKey): Option<RowVal>
    requires InScope(k)
  {
    match k
    case OrderKey(id) => if id in m.orders.orders then Some(OrderVal(Row(m.orders.orders[id]))) else None
    case LevelKey(spot, side, price) => AmountRow(BookAt(m.books, spot).Size(side, AsU64(price)))
    case BookMetaKey(spot) => if spot in m.books then Some(BookMetaRow(m.books[spot])) else None
    case LastTradeKey(spot) => if spot in m.last then Some(Amount(AsI64(m.last[spot]))) else None
    case HoldingKey(vault, spot) => AmountRow(HoldingAt(m.holdings, vault, spot))
  }

  ghost predicate Mirrors(rows: Rows, m: Mem) {
    forall k :: InScope(k) ==> Get(rows, k) == Persisted(m, k)
  }

  lemma KeyedKept(o: Orders, spot: Spot, op: OrderOp)
    requires Keyed(o.orders)
    ensures Keyed(OpOrders(o, spot, op).orders)
  {
  }

  /** The collected delta turns the tables into the mirror of memory. */
  ghost predicate Holds(rows: Rows, x: Exec) {
    Mirrors(x.delta.Apply(rows), x.mem) && Keyed(x.mem.orders.orders)
  }

  // ---- Effect of the collecting steps at one key ----

  function At(d: Delta, rows: Rows, k: RowKey): Option<RowVal> {
    Get(d.Apply(rows), k)
  }

  lemma DropAllAt(d: Delta, rows: Rows, keys: set<RowKey>, k: RowKey)
    ensures At(DropAll(d, keys), rows, k) == if k in keys then None else At(d, rows, k)
  {
  }

  lemma InLevelKeys(spot: Spot, side: Side, levels: Levels, k: RowKey)
    ensures k in LevelKeys(spot, side, levels)
            <==> k.LevelKey? && k.spot == spot && k.side == side && AsU64(k.price) in levels
  {
    if k.LevelKey? {
      AsU64Inverts(k.price);
    }
  }

  function QuoteDelta(d: Delta, spot: Spot, side: Side, q: ChainLevel): Delta {
    if q.quantity > 0 then d.PutAmount(LevelKey(spot, side, AsI64(q.price)), AsI64(q.quantity)) else d
  }

  lemma QuoteAt(d: Delta, rows: Rows, spot: Spot, side: Side, q: ChainLevel, k: RowKey)
    ensures At(QuoteDelta(d, spot, side, q), rows, k) ==
            if q.quantity > 0 && k == LevelKey(spot, side, AsI64(q.price)) then AmountRow(q.quantity) else At(d, rows, k)
  {
  }

  lemma {:induction false} QuotesAt(d: Delta, rows: Rows, spot: Spot, side: Side, quotes: seq<ChainLevel>, k: RowKey)
    ensures var levels := InsertLevels(map[], quotes);
            At(CollectQuotes(d, spot, side, quotes), rows, k) ==
            if k.LevelKey? && k.spot == spot && k.side == side && AsU64(k.price) in levels
            then AmountRow(levels[AsU64(k.price)]) else At(d, rows, k)
  {
    if quotes != [] {
      var rest, q := quotes[..|quotes| - 1], quotes[|quotes| - 1];
      QuotesAt(d, rows, spot, side, rest, k);
      QuoteAt(CollectQuotes(d, spot, side, rest), rows, spot, side, q, k);
      if k.LevelKey? {
        AsU64Inverts(k.price);
      }
    }
  }

  lemma HydrationAt(d: Delta, rows: Rows, spot: Spot, b: Book, chain: ChainBook, last: Option<u64>, k: RowKey)
    ensures var after := HydrateBook(b, chain, last);
            At(CollectHydration(d, spot, b, chain, last), rows, k) ==
            if k == BookMetaKey(spot) then Some(BookMetaRow(after))
            else if k.LevelKey? && k.spot == spot then
              var p := AsU64(k.price);
              if p in after.On(k.side) then AmountRow(after.On(k.side)[p])
              else if p in b.On(k.side) then None else At(d, rows, k)
            else At(d, rows, k)
  {
    var bids, asks := LevelKeys(spot, Buy, b.bids), LevelKeys(spot, Sell, b.asks);
    var noBids := DropAll(d, bids);
    var dropped := DropAll(noBids, asks);
    var quoted := CollectQuotes(dropped, spot, Buy, chain.bids);
    QuotesAt(quoted, rows, spot, Sell, chain.asks, k);
    QuotesAt(dropped, rows, spot, Buy, chain.bids, k);
    DropAllAt(noBids, rows, asks, k);
    DropAllAt(d, rows, bids, k);
    InLevelKeys(spot, Buy, b.bids, k);
    InLevelKeys(spot, Sell, b.asks, k);
  }

  lemma LevelAt(d: Delta, rows: Rows, spot: Spot, after: Book, side: Side, price: u64, k: RowKey)
    ensures At(CollectLevel(d, spot, after, side, price), rows, k) ==
            if k == BookMetaKey(spot) then Some(BookMetaRow(after))
            else if k == LevelKey(spot, side, AsI64(price)) then AmountRow(after.Size(side, price))
            else At(d, rows, k)
  {
  }

  // ---- Each call keeps the mirror, key by key ----

  ghost predicate HoldsAt(rows: Rows, x: Exec, k: RowKey) {
    InScope(k) && At(x.delta, rows, k) == Persisted(x.mem, k)
  }

  lemma HydrateMirrored(rows: Rows, x: Exec, spot: Spot, found: Option<Hydration>, k: RowKey)
    requires HoldsAt(rows, x, k)
    ensures HoldsAt(rows, OpExec(x, spot, Commit(found)), k)
  {
    if found.Some? {
      PersistedWith(x.mem, spot, HydrateBook(BookAt(x.mem.books, spot), found.value.book, found.value.last), k);
      HydrationAt(x.delta, rows, spot, BookAt(x.mem.books, spot), found.value.book, found.value.last, k);
    }
  }

  lemma OtherLevels(b: Book, op: BookOp, blockNum: u64, side: Side, price: u64)
    requires EditOf(op).Some?
    ensures side != op.side || price != op.price
            ==> OpBook(b, op, blockNum).Size(side, price) == b.Size(side, price)
  {
    OpLevels(b, op, blockNum, side);
  }

  /** A changed book changes the rows of its levels and its meta row. */
  lemma PersistedWith(m: Mem, spot: Spot, after: Book, k: RowKey)
    requires InScope(k)
    ensures Persisted(m.(books := m.books[spot := after]), k) ==
            if k.LevelKey? && k.spot == spot then AmountRow(after.Size(k.side, AsU64(k.price)))
            else if k == BookMetaKey(spot) then Some(BookMetaRow(after))
            else Persisted(m, k)
  {
  }

  lemma BookMirrored(rows: Rows, x: Exec, spot: Spot, op: BookOp, blockNum: u64, k: RowKey)
    requires HoldsAt(rows, x, k)
    ensures HoldsAt(rows, OpExec(x, spot, OnBook(op, blockNum)), k)
  {
    if EditOf(op).Some? {
      var b := BookAt(x.mem.books, spot);
      var after := OpBook(b, op, blockNum);
      LevelAt(x.delta, rows, spot, after, op.side, op.price, k);
      PersistedWith(x.mem, spot, after, k);
      if k.LevelKey? && k.spot == spot {
        AsU64Inverts(k.price);
        OtherLevels(b, op, blockNum, k.side, AsU64(k.price));
      }
    }
  }

  lemma OrdersMirrored(rows: Rows, x: Exec, spot: Spot, op: OrderOp, k: RowKey)
    requires HoldsAt(rows, x, k) && Keyed(x.mem.orders.orders)
    ensures HoldsAt(rows, OpExec(x, spot, OnOrders(op)), k)
  {
    OrderRowAt(x.delta, rows, x.mem.orders, spot, op, k);
  }

  lemma ChangeRowAt(d: Delta, rows: Rows, o: Orders, spot: Spot, op: OrderOp, k: RowKey)
    requires Keyed(o.orders) && !op.Insert?
    requires k.OrderKey? ==> At(d, rows, k) == if k.order in o.orders then Some(OrderVal(Row(o.orders[k.order]))) else None
    ensures var after := OpOrders(o, spot, op).orders;
            At(CollectOrderOp(d, o, spot, op), rows, k) ==
            if k.OrderKey? then (if k.order in after then Some(OrderVal(Row(after[k.order]))) else None)
            else At(d, rows, k)
  {
    var id := Find(o, spot, op.chain);
    if id.Some? {
      assert Changed(o.orders[id.value], op).id == id.value;
    }
  }

  lemma OrderRowAt(d: Delta, rows: Rows, o: Orders, spot: Spot, op: OrderOp, k: RowKey)
    requires Keyed(o.orders)
    requires k.OrderKey? ==> At(d, rows, k) == if k.order in o.orders then Some(OrderVal(Row(o.orders[k.order]))) else None
    ensures var after := OpOrders(o, spot, op).orders;
            At(CollectOrderOp(d, o, spot, op), rows, k) ==
            if k.OrderKey? then (if k.order in after then Some(OrderVal(Row(after[k.order]))) else None)
            else At(d, rows, k)
  {
    if !op.Insert? {
      ChangeRowAt(d, rows, o, spot, op, k);
    }
  }

  lemma HoldingSet(holdings: map<string, map<Spot, u64>>, vault: string, spot: Spot, next: u64, v: string, s: Spot)
    ensures HoldingAt(holdings[vault := SetAmount(Get(holdings, vault).GetOr(map[]), spot, next)], v, s) ==
            if v == vault && s == spot then next else HoldingAt(holdings, v, s)
  {
  }

  lemma HoldingPutAt(d: Delta, rows: Rows, vault: string, spot: Spot, next: u64, k: RowKey)
    ensures At(d.PutAmount(HoldingKey(vault, spot), AsI64(next)), rows, k) ==
            if k == HoldingKey(vault, spot) then AmountRow(next) else At(d, rows, k)
  {
  }

  lemma VaultMirrored(rows: Rows, x: Exec, spot: Spot, chain: string, side: Side, amount: u64, k: RowKey)
    requires HoldsAt(rows, x, k)
    ensures HoldsAt(rows, OpExec(x, spot, VaultFill(chain, side, amount)), k)
  {
    var vault := VaultOfOrder(x.mem, spot, chain);
    if vault.Some? && amount > 0 {
      var next := NextHolding(HoldingAt(x.mem.holdings, vault.value, spot), side, amount);
      if k.HoldingKey? {
        HoldingSet(x.mem.holdings, vault.value, spot, next, k.vault, k.spot);
      }
      HoldingPutAt(x.delta, rows, vault.value, spot, next, k);
    }
  }

  lemma CallMirroredAt(rows: Rows, x: Exec, spot: Spot, op: Op, k: RowKey)
    requires HoldsAt(rows, x, k) && Keyed(x.mem.orders.orders)
    ensures HoldsAt(rows, OpExec(x, spot, op), k)
  {
    match op {
      case SkipIfKnown(_, _) =>
      case SkipIfHydrated(_) =>
      case AskNode(_) =>
      case Commit(found) => HydrateMirrored(rows, x, spot, found, k);
      case OnBook(b, blockNum) => BookMirrored(rows, x, spot, b, blockNum, k);
      case OnOrders(o) => OrdersMirrored(rows, x, spot, o, k);
      case RecordTrade(price) =>
      case VaultFill(chain, side, amount) => VaultMirrored(rows, x, spot, chain, side, amount, k);
    }
  }

  /** One store call, whichever it is, keeps tables and memory in step. */
  lemma CallMirrored(rows: Rows, x: Exec, spot: Spot, op: Op)
    requires Holds(rows, x)
    ensures Holds(rows, OpExec(x, spot, op))
  {
    if op.OnOrders? {
      KeyedKept(x.mem.orders, spot, op.order);
    }
    forall k | InScope(k)
      ensures HoldsAt(rows, OpExec(x, spot, op), k)
    {
      assert HoldsAt(rows, x, k);
      CallMirroredAt(rows, x, spot, op, k);
    }
    HoldsEverywhere(rows, OpExec(x, spot, op));
  }

  lemma HoldsEverywhere(rows: Rows, x: Exec)
    requires Keyed(x.mem.orders.orders) && forall k :: InScope(k) ==> HoldsAt(rows, x, k)
    ensures Holds(rows, x)
  {
    forall k | InScope(k)
      ensures Get(x.delta.Apply(rows), k) == Persisted(x.mem, k)
    {
      assert HoldsAt(rows, x, k);
    }
  }

  lemma {:induction false} CallsMirrored(rows: Rows, x: Exec, spot: Spot, calls: seq<Op>)
    requires Holds(rows, x)
    ensures Holds(rows, RunCalls(x, spot, calls))
    decreases |calls|
  {
    if calls != [] {
      CallMirrored(rows, x, spot, calls[0]);
      CallsMirrored(rows, OpExec(x, spot, calls[0]), spot, RestAfter(x.mem, spot, calls));
    }
  }

  lemma {:induction false} EventsMirrored(rows: Rows, x: Exec, spot: Spot, blockNum: u64, events: seq<MarketEvent>)
    requires Holds(rows, x)
    ensures Holds(rows, RunEvents(x, spot, blockNum, events))
  {
    if events != [] {
      EventsMirrored(rows, x, spot, blockNum, events[..|events| - 1]);
      var y := RunEvents(x, spot, blockNum, events[..|events| - 1]);
      CallsMirrored(rows, y, spot, Calls(spot, blockNum, events[|events| - 1]));
    }
  }

  /** Delta mirror: for every list of events of one market, tables plus collected rows mirror new memory. */
  lemma {:induction false} DeltaMirror(rows: Rows, m: Mem, spot: Spot, blockNum: u64, events: seq<MarketEvent>)
    requires Mirrors(rows, m) && Keyed(m.orders.orders)
    ensures var x := RunEvents(Exec(m, EMPTY_DELTA), spot, blockNum, events);
            Mirrors(x.delta.Apply(rows), x.mem) && Keyed(x.mem.orders.orders)
  {
    assert EMPTY_DELTA.Apply(rows) == rows;
    EventsMirrored(rows, Exec(m, EMPTY_DELTA), spot, blockNum, events);
  }

  /** The keys under which memory is stored. */
  function KeysOf(m: Mem): set<RowKey> {
    (set id | id in m.orders.orders :: OrderKey(id))
    + (set spot, p | spot in m.books && p in m.books[spot].bids :: LevelKey(spot, Buy, AsI64(p)))
    + (set spot, p | spot in m.books && p in m.books[spot].asks :: LevelKey(spot, Sell, AsI64(p)))
    + (set spot | spot in m.books :: BookMetaKey(spot))
    + (set spot | spot in m.last :: LastTradeKey(spot))
    + (set vault, spot | vault in m.holdings && spot in m.holdings[vault] :: HoldingKey(vault, spot))
  }

  lemma KeysSuffice(m: Mem, k: RowKey)
    requires InScope(k) && Persisted(m, k).Some?
    ensures k in KeysOf(m)
  {
    if k.LevelKey? {
      AsU64Inverts(k.price);
      assert AsU64(k.price) in m.books[k.spot].On(k.side);
    } else if k.HoldingKey? {
      assert k.spot in m.holdings[k.vault];
    }
  }

  /** Every memory has tables that mirror it. */
  function MirrorOf(m: Mem): (rows: Rows)
    ensures Mirrors(rows, m)
  {
    var rows := map k | k in KeysOf(m) && InScope(k) && Persisted(m, k).Some? :: Persisted(m, k).value;
    assert Mirrors(rows, m) by {
      forall k | InScope(k)
        ensures Get(rows, k) == Persisted(m, k)
      {
        if Persisted(m, k).Some? {
          KeysSuffice(m, k);
        }
      }
    }
    rows
  }

  /** What a stored amount is read back as: `load_book_levels` and `load_vault_portfolio` skip the rest. */
  function ReadAmount(rows: Rows, k: RowKey): Option<u64> {
    if k in rows && rows[k].Amount? && rows[k].raw > 0 then Some(AsU64(rows[k].raw)) else None
  }

  /** A mirrored level or holding reads back as memory has it exactly when memory holds less than 2^63. */
  lemma ReadsBackIff(rows: Rows, m: Mem, spot: Spot, side: Side, price: u64, vault: string)
    requires Mirrors(rows, m)
    ensures ReadAmount(rows, LevelKey(spot, side, AsI64(price))).GetOr(0) == BookAt(m.books, spot).Size(side, price)
            <==> BookAt(m.books, spot).Size(side, price) < TWO_63
    ensures ReadAmount(rows, HoldingKey(vault, spot)).GetOr(0) == HoldingAt(m.holdings, vault, spot)
            <==> HoldingAt(m.holdings, vault, spot) < TWO_63
  {
    assert Get(rows, LevelKey(spot, side, AsI64(price))) == Persisted(m, LevelKey(spot, side, AsI64(price)));
    assert Get(rows, HoldingKey(vault, spot)) == Persisted(m, HoldingKey(vault, spot));
  }
}
