/**
 Saving memory to the store and restoring it: the forced full write (src/indexer/mod.rs), the load
 functions (src/persist/index_state_tables.rs) and the import into an empty index
 (src/persist/shared.rs, src/indexer/books.rs, src/indexer/index_state.rs).
 */
module Snapshot {
  import opened Ints
  import opened WriteSets
  import opened Books
  import opened OrderIndex
  import opened Processor
  import Mirror

  datatype LastTrade = LastTrade(spot: Spot, price: u64)
  datatype HoldingRow = HoldingRow(vault: string, spot: Spot, amount: u64)

  datatype Loaded = Loaded(
    orders: seq<StoredOrder>, lastTrades: seq<LastTrade>, levels: seq<LevelRow>, metas: seq<BookMeta>,
    holdings: seq<HoldingRow>)

  type Holdings = map<string, map<Spot, u64>>

  // ---- Export ----

  /** The entries of a hash map, in whatever order it yields them. */
  method InSomeOrder<K(==)>(keys: set<K>) returns (r: seq<K>)
    ensures forall k :: k in r <==> k in keys
  {
    r := [];
    var todo := keys;
    while todo != {}
      invariant todo <= keys
      invariant forall k :: k in r <==> k in keys && k !in todo
    {
      var k :| k in todo;
      r, todo := r + [k], todo - {k};
    }
  }

  method ExportOrders(orders: map<OrderUuid, StoredOrder>) returns (rows: seq<StoredOrder>)
    requires Keyed(orders)
    ensures forall s :: s in rows <==> Get(orders, s.id) == Some(s)
  {
    var ids := InSomeOrder(orders.Keys);
    rows := [];
    for i := 0 to |ids|
      invariant forall s :: s in rows <==> s.id in ids[..i] && Get(orders, s.id) == Some(s)
    {
      assert ids[i] in ids;
      rows := rows + [orders[ids[i]]];
    }
    assert ids[..|ids|] == ids;
  }

  method ExportLastTrades(last: map<Spot, u64>) returns (rows: seq<LastTrade>)
    ensures forall t :: t in rows <==> Get(last, t.spot) == Some(t.price)
  {
    var spots := InSomeOrder(last.Keys);
    rows := [];
    for i := 0 to |spots|
      invariant forall t :: t in rows <==> t.spot in spots[..i] && Get(last, t.spot) == Some(t.price)
    {
      assert spots[i] in spots;
      rows := rows + [LastTrade(spots[i], last[spots[i]])];
    }
    assert spots[..|spots|] == spots;
  }

  method ExportLevels(spot: Spot, side: Side, levels: Levels) returns (rows: seq<LevelRow>)
    ensures forall r :: r in rows <==> r.spot == spot && r.side == side && Get(levels, r.price) == Some(r.size)
  {
    var prices := InSomeOrder(levels.Keys);
    rows := [];
    for i := 0 to |prices|
      invariant forall r :: r in rows <==>
                            r.spot == spot && r.side == side && r.price in prices[..i] && Get(levels, r.price) == Some(r.size)
    {
      assert prices[i] in prices;
      rows := rows + [LevelRow(spot, side, prices[i], levels[prices[i]])];
    }
    assert prices[..|prices|] == prices;
  }

  method ExportBooks(shards: map<Spot, Book>) returns (levels: seq<LevelRow>, metas: seq<BookMeta>)
    ensures forall r :: r in levels <==> r.spot in shards && Get(shards[r.spot].On(r.side), r.price) == Some(r.size)
    ensures forall m :: m in metas <==> m.spot in shards && m == MetaOf(m.spot, shards[m.spot])
  {
    var spots := InSomeOrder(shards.Keys);
    levels, metas := [], [];
    for i := 0 to |spots|
      invariant forall r :: r in levels <==>
                            r.spot in spots[..i] && r.spot in shards && Get(shards[r.spot].On(r.side), r.price) == Some(r.size)
      invariant forall m :: m in metas <==> m.spot in spots[..i] && m.spot in shards && m == MetaOf(m.spot, shards[m.spot])
    {
      var spot := spots[i];
      assert spot in spots;
      metas := metas + [MetaOf(spot, shards[spot])];
      var bids := ExportLevels(spot, Buy, shards[spot].bids);
      var asks := ExportLevels(spot, Sell, shards[spot].asks);
      levels := levels + bids + asks;
    }
    assert spots[..|spots|] == spots;
  }

  function MetaOf(spot: Spot, b: Book): BookMeta { BookMeta(spot, b.sequence, b.lastPrice) }

  method ExportPortfolio(vault: string, amounts: map<Spot, u64>) returns (rows: seq<HoldingRow>)
    ensures forall h :: h in rows <==> h.vault == vault && Get(amounts, h.spot) == Some(h.amount) && h.amount != 0
  {
    var spots := InSomeOrder(amounts.Keys);
    rows := [];
    for i := 0 to |spots|
      invariant forall h :: h in rows <==>
                            h.vault == vault && h.spot in spots[..i] && Get(amounts, h.spot) == Some(h.amount) && h.amount != 0
    {
      assert spots[i] in spots;
      if amounts[spots[i]] == 0 {
        continue;
      }
      rows := rows + [HoldingRow(vault, spots[i], amounts[spots[i]])];
    }
    assert spots[..|spots|] == spots;
  }

  method ExportHoldings(holdings: Holdings) returns (rows: seq<HoldingRow>)
    ensures forall h :: h in rows <==> HoldingAt(holdings, h.vault, h.spot) == h.amount && h.amount != 0
  {
    var vaults := InSomeOrder(holdings.Keys);
    rows := [];
    for i := 0 to |vaults|
      invariant forall h :: h in rows <==>
                            h.vault in vaults[..i] && HoldingAt(holdings, h.vault, h.spot) == h.amount && h.amount != 0
    {
      assert vaults[i] in vaults;
      var more := ExportPortfolio(vaults[i], holdings[vaults[i]]);
      rows := rows + more;
    }
    assert vaults[..|vaults|] == vaults;
  }

  // ---- The full write set ----

  function LevelKeyOf(r: LevelRow): RowKey { LevelKey(r.spot, r.side, AsI64(r.price)) }

  /** The row a full write set stores at a key; `globals` are the market and vault rows. */
  function ExportRow(m: Mem, globals: Rows, k: RowKey): Option<RowVal> {
    match k
    case MarketKey(_) => Get(globals, k)
    case VaultKey(_) => Get(globals, k)
    case OrderKey(id) => if id in m.orders.orders then Some(OrderVal(Row(m.orders.orders[id]))) else None
    case LevelKey(spot, side, price) => NonZero(BookAt(m.books, spot).Size(side, AsU64(price)))
    case BookMetaKey(spot) => if spot in m.books then Some(BookMetaRow(m.books[spot])) else None
    case LastTradeKey(spot) => if spot in m.last then Some(Amount(AsI64(m.last[spot]))) else None
    case HoldingKey(vault, spot) => NonZero(HoldingAt(m.holdings, vault, spot))
  }

  function NonZero(raw: u64): Option<RowVal> {
    if raw == 0 then None else Some(Amount(AsI64(raw)))
  }

  ghost predicate Exports(rows: Rows, m: Mem, globals: Rows) {
    forall k :: Get(rows, k) == ExportRow(m, globals, k)
  }

  predicate OnlyGlobals(globals: Rows) {
    forall k :: k in globals ==> k.MarketKey? || k.VaultKey?
  }

  function MetaRowOf(m: BookMeta): RowVal {
    BookMetaVal(AsI64(m.sequence), match m.lastPrice case None => None case Some(p) => Some(AsI64(p)))
  }

  /** The families stored so far hold what memory exports, the others nothing. */
  ghost predicate Partly(rows: Rows, m: Mem, globals: Rows, done: set<Family>) {
    forall k :: Get(rows, k) == if FamilyOf(k) in done then ExportRow(m, globals, k) else None
  }

  /** The kept rows, put under their keys, are what memory exports in a family. */
  ghost predicate Covers<T(!new)>(rows: seq<T>, key: T -> RowKey, val: T -> RowVal, keep: T -> bool, m: Mem, family: Family) {
    && (forall t :: t in rows && keep(t) ==> FamilyOf(key(t)) == family && ExportRow(m, map[], key(t)) == Some(val(t)))
    && (forall k :: FamilyOf(k) == family && ExportRow(m, map[], k).Some? ==> exists t :: t in rows && keep(t) && key(t) == k)
  }

  /** One insert per kept row. */
  method StoreRows<T(!new)>(store: Rows, rows: seq<T>, key: T -> RowKey, val: T -> RowVal, keep: T -> bool,
                            ghost m: Mem, ghost globals: Rows, ghost done: set<Family>, ghost family: Family) returns (r: Rows)
    requires Partly(store, m, globals, done) && family !in done + {MarketFamily, VaultFamily}
    requires Covers(rows, key, val, keep, m, family)
    ensures Partly(r, m, globals, done + {family})
  {
    r := store;
    ghost var put: set<RowKey> := {};
    for n := 0 to |rows|
      invariant forall t :: t in rows[..n] && keep(t) ==> key(t) in put
      invariant forall k :: k in put ==> FamilyOf(k) == family
      invariant forall k :: Get(r, k) == if k in put then ExportRow(m, map[], k) else Get(store, k)
    {
      assert rows[n] in rows;
      if !keep(rows[n]) {
        continue;
      }
      r := r[key(rows[n]) := val(rows[n])];
      put := put + {key(rows[n])};
    }
    assert rows[..|rows|] == rows;
    forall k
      ensures Get(r, k) == if FamilyOf(k) in done + {family} then ExportRow(m, globals, k) else None
    {
      StoredAt(rows, key, val, keep, m, globals, family, k);
    }
  }

  lemma StoredAt<T(!new)>(rows: seq<T>, key: T -> RowKey, val: T -> RowVal, keep: T -> bool, m: Mem, globals: Rows,
                          family: Family, k: RowKey)
    requires Covers(rows, key, val, keep, m, family) && family != MarketFamily && family != VaultFamily
    ensures FamilyOf(k) == family ==> ExportRow(m, map[], k) == ExportRow(m, globals, k)
    ensures FamilyOf(k) == family && ExportRow(m, globals, k).Some? ==> exists t :: t in rows && keep(t) && key(t) == k
  {
  }

  method StoreOrders(store: Rows, m: Mem, ghost globals: Rows, ghost done: set<Family>) returns (r: Rows)
    requires Keyed(m.orders.orders) && Partly(store, m, globals, done) && OrderFamily !in done
    ensures Partly(r, m, globals, done + {OrderFamily})
  {
    var rows := ExportOrders(m.orders.orders);
    forall k: RowKey | k.OrderKey? && k.order in m.orders.orders
      ensures m.orders.orders[k.order] in rows
    {
      assert Get(m.orders.orders, m.orders.orders[k.order].id) == Some(m.orders.orders[k.order]);
    }
    assert forall s :: s in rows ==> Get(m.orders.orders, s.id) == Some(s);
    r := StoreRows(store, rows, OrderKeyOf, (s: StoredOrder) => OrderVal(Row(s)), _ => true, m, globals, done, OrderFamily);
  }

  function OrderKeyOf(s: StoredOrder): RowKey { OrderKey(s.id) }

  method StoreLevels(store: Rows, m: Mem, rows: seq<LevelRow>, ghost globals: Rows, ghost done: set<Family>) returns (r: Rows)
    requires forall l :: l in rows <==> l.spot in m.books && Get(m.books[l.spot].On(l.side), l.price) == Some(l.size)
    requires Partly(store, m, globals, done) && LevelFamily !in done
    ensures Partly(r, m, globals, done + {LevelFamily})
  {
    forall k: RowKey | k.LevelKey? && ExportRow(m, map[], k).Some?
      ensures var l := LevelRow(k.spot, k.side, AsU64(k.price), BookAt(m.books, k.spot).Size(k.side, AsU64(k.price)));
              l in rows && l.size != 0 && LevelKeyOf(l) == k
    {
      AsU64Inverts(k.price);
    }
    r := StoreRows(store, rows, LevelKeyOf, (l: LevelRow) => Amount(AsI64(l.size)), (l: LevelRow) => l.size != 0,
                   m, globals, done, LevelFamily);
  }

  method StoreMetas(store: Rows, m: Mem, rows: seq<BookMeta>, ghost globals: Rows, ghost done: set<Family>) returns (r: Rows)
    requires forall b :: b in rows <==> b.spot in m.books && b == MetaOf(b.spot, m.books[b.spot])
    requires Partly(store, m, globals, done) && BookMetaFamily !in done
    ensures Partly(r, m, globals, done + {BookMetaFamily})
  {
    forall k: RowKey | k.BookMetaKey? && k.spot in m.books
      ensures MetaOf(k.spot, m.books[k.spot]) in rows
    {
    }
    r := StoreRows(store, rows, MetaKeyOf, MetaRowOf, _ => true, m, globals, done, BookMetaFamily);
  }

  function MetaKeyOf(b: BookMeta): RowKey { BookMetaKey(b.spot) }

  method StoreLastTrades(store: Rows, m: Mem, ghost globals: Rows, ghost done: set<Family>) returns (r: Rows)
    requires Partly(store, m, globals, done) && LastTradeFamily !in done
    ensures Partly(r, m, globals, done + {LastTradeFamily})
  {
    var rows := ExportLastTrades(m.last);
    forall k: RowKey | k.LastTradeKey? && k.spot in m.last
      ensures LastTrade(k.spot, m.last[k.spot]) in rows
    {
    }
    r := StoreRows(store, rows, TradeKeyOf, (t: LastTrade) => Amount(AsI64(t.price)), _ => true,
                   m, globals, done, LastTradeFamily);
  }

  function TradeKeyOf(t: LastTrade): RowKey { LastTradeKey(t.spot) }

  method StoreHoldings(store: Rows, m: Mem, ghost globals: Rows, ghost done: set<Family>) returns (r: Rows)
    requires Partly(store, m, globals, done) && HoldingFamily !in done
    ensures Partly(r, m, globals, done + {HoldingFamily})
  {
    var rows := ExportHoldings(m.holdings);
    forall k: RowKey | k.HoldingKey? && HoldingAt(m.holdings, k.vault, k.spot) != 0
      ensures HoldingRow(k.vault, k.spot, HoldingAt(m.holdings, k.vault, k.spot)) in rows
    {
    }
    r := StoreRows(store, rows, HoldingKeyOf, (h: HoldingRow) => Amount(AsI64(h.amount)), (h: HoldingRow) => h.amount != 0,
                   m, globals, done, HoldingFamily);
  }

  function HoldingKeyOf(h: HoldingRow): RowKey { HoldingKey(h.vault, h.spot) }

  /** `force_full_index_write`: everything in memory, as one set that replaces the tables. */
  method CollectFull(m: Mem, globals: Rows, blockNum: u64, digest: string) returns (ws: WriteSet)
    requires OnlyGlobals(globals) && Keyed(m.orders.orders)
    ensures ws.fullReplace && ws.blockNum == blockNum && ws.digest == digest && ws.delta.del == {}
    ensures Exports(ws.delta.store, m, globals)
  {
    var levels, metas := ExportBooks(m.books);
    ghost var done := {MarketFamily, VaultFamily};
    var store := StoreOrders(globals, m, globals, done);
    store := StoreLevels(store, m, levels, globals, done + {OrderFamily});
    store := StoreMetas(store, m, metas, globals, done + {OrderFamily, LevelFamily});
    store := StoreLastTrades(store, m, globals, done + {OrderFamily, LevelFamily, BookMetaFamily});
    store := StoreHoldings(store, m, globals, done + {OrderFamily, LevelFamily, BookMetaFamily, LastTradeFamily});
    ws := WriteSet(blockNum, digest, true, Delta(store, {}));
  }

  // ---- Load ----

  /** The tables are typed: the value at a key is one of the key's family. */
  ghost predicate Typed(rows: Rows) {
    forall k :: k in rows ==>
      match k
      case OrderKey(id) => rows[k].OrderVal? && rows[k].row.id == id
      case BookMetaKey(_) => rows[k].BookMetaVal?
      case MarketKey(_) => rows[k].Payload?
      case VaultKey(_) => rows[k].Payload?
      case _ => rows[k].Amount?
  }

  function FromRow(r: OrderRow): StoredOrder {
    StoredOrder(r.id, r.user, r.chain, r.spot, AsU64(r.size), AsU64(r.filled), r.status, r.side, r.price, r.caption)
  }

  lemma FromRowInverts(s: StoredOrder, r: OrderRow)
    ensures FromRow(Row(s)) == s && Row(FromRow(r)) == r
  {
    AsU64Inverts(r.size);
    AsU64Inverts(r.filled);
  }

  method LoadOrders(rows: Rows) returns (out: seq<StoredOrder>)
    requires Typed(rows)
    ensures forall s :: s in out <==> Get(rows, OrderKey(s.id)) == Some(OrderVal(Row(s)))
  {
    var keys := InSomeOrder(rows.Keys);
    out := [];
    for i := 0 to |keys|
      invariant forall s :: s in out <==> OrderKey(s.id) in keys[..i] && Get(rows, OrderKey(s.id)) == Some(OrderVal(Row(s)))
    {
      var k := keys[i];
      assert k in keys;
      if k.OrderKey? {
        var s := FromRow(rows[k].row);
        FromRowInverts(s, rows[k].row);
        forall t: StoredOrder | t.id == k.order && Get(rows, k) == Some(OrderVal(Row(t)))
          ensures t == s
        {
          FromRowInverts(t, rows[k].row);
        }
        out := out + [s];
      }
    }
    assert keys[..|keys|] == keys;
  }

  method LoadLastTrades(rows: Rows) returns (out: seq<LastTrade>)
    requires Typed(rows)
    ensures forall t :: t in out <==> Get(rows, LastTradeKey(t.spot)) == Some(Amount(AsI64(t.price)))
  {
    var keys := InSomeOrder(rows.Keys);
    out := [];
    for i := 0 to |keys|
      invariant forall t :: t in out <==>
                            LastTradeKey(t.spot) in keys[..i] && Get(rows, LastTradeKey(t.spot)) == Some(Amount(AsI64(t.price)))
    {
      var k := keys[i];
      assert k in keys;
      if k.LastTradeKey? {
        AsU64Inverts(rows[k].raw);
        out := out + [LastTrade(k.spot, AsU64(rows[k].raw))];
      }
    }
    assert keys[..|keys|] == keys;
  }

  predicate StoresLevel(rows: Rows, r: LevelRow) {
    Get(rows, LevelKeyOf(r)) == Some(Amount(AsI64(r.size))) && AsI64(r.size) > 0
  }

  method LoadLevels(rows: Rows) returns (out: seq<LevelRow>)
    requires Typed(rows)
    ensures forall r :: r in out <==> StoresLevel(rows, r)
  {
    var keys := InSomeOrder(rows.Keys);
    out := [];
    for i := 0 to |keys|
      invariant forall r :: r in out <==> LevelKeyOf(r) in keys[..i] && StoresLevel(rows, r)
    {
      var k := keys[i];
      assert k in keys;
      if k.LevelKey? {
        var size := rows[k].raw;
        if size <= 0 {
          continue;
        }
        AsU64Inverts(size);
        AsU64Inverts(k.price);
        out := out + [LevelRow(k.spot, k.side, AsU64(k.price), AsU64(size))];
      }
    }
    assert keys[..|keys|] == keys;
  }

  method LoadMetas(rows: Rows) returns (out: seq<BookMeta>)
    requires Typed(rows)
    ensures forall m :: m in out <==> Get(rows, BookMetaKey(m.spot)) == Some(MetaRowOf(m))
  {
    var keys := InSomeOrder(rows.Keys);
    out := [];
    for i := 0 to |keys|
      invariant forall m :: m in out <==> BookMetaKey(m.spot) in keys[..i] && Get(rows, BookMetaKey(m.spot)) == Some(MetaRowOf(m))
    {
      var k := keys[i];
      assert k in keys;
      if k.BookMetaKey? {
        var v := rows[k];
        var m := BookMeta(k.spot, AsU64(v.sequence), match v.lastPrice case None => None case Some(p) => Some(AsU64(p)));
        MetaInverts(m, v);
        out := out + [m];
      }
    }
    assert keys[..|keys|] == keys;
  }

  lemma MetaInverts(m: BookMeta, v: RowVal)
    requires v.BookMetaVal? && m.sequence == AsU64(v.sequence)
    requires m.lastPrice == match v.lastPrice case None => None case Some(p) => Some(AsU64(p))
    ensures MetaRowOf(m) == v
    ensures forall n: BookMeta :: n.spot == m.spot && MetaRowOf(n) == v ==> n == m
  {
    AsU64Inverts(v.sequence);
    if v.lastPrice.Some? {
      AsU64Inverts(v.lastPrice.value);
    }
  }

  predicate StoresHolding(rows: Rows, h: HoldingRow) {
    Get(rows, HoldingKey(h.vault, h.spot)) == Some(Amount(AsI64(h.amount))) && AsI64(h.amount) > 0
  }

  method LoadHoldings(rows: Rows) returns (out: seq<HoldingRow>)
    requires Typed(rows)
    ensures forall h :: h in out <==> StoresHolding(rows, h)
  {
    var keys := InSomeOrder(rows.Keys);
    out := [];
    for i := 0 to |keys|
      invariant forall h :: h in out <==> HoldingKey(h.vault, h.spot) in keys[..i] && StoresHolding(rows, h)
    {
      var k := keys[i];
      assert k in keys;
      if k.HoldingKey? {
        var amount := rows[k].raw;
        if amount <= 0 {
          continue;
        }
        AsU64Inverts(amount);
        out := out + [HoldingRow(k.vault, k.spot, AsU64(amount))];
      }
    }
    assert keys[..|keys|] == keys;
  }

  // ---- Import into an empty index ----

  function InsertAll(rows: seq<StoredOrder>): Orders {
    if rows == [] then NO_ORDERS
    else
      var s := rows[|rows| - 1];
      OpOrders(InsertAll(rows[..|rows| - 1]), s.spot, Insert(s))
  }

  function ImportTrades(rows: seq<LastTrade>): map<Spot, u64> {
    if rows == [] then map[]
    else ImportTrades(rows[..|rows| - 1])[rows[|rows| - 1].spot := rows[|rows| - 1].price]
  }

  function ImportHoldings(rows: seq<HoldingRow>): Holdings {
    if rows == [] then map[]
    else
      var rest, h := ImportHoldings(rows[..|rows| - 1]), rows[|rows| - 1];
      if h.amount == 0 then rest else rest[h.vault := Get(rest, h.vault).GetOr(map[])[h.spot := h.amount]]
  }

  /** Memory after `load_into` an empty index that knows the vaults. */
  function Imported(l: Loaded, vaultOf: map<string, string>): Mem {
    Mem(ImportLevels(ImportMetas(l.metas), l.levels), ImportTrades(l.lastTrades), InsertAll(l.orders), vaultOf,
        ImportHoldings(l.holdings))
  }

  method ImportPortfolio(rows: seq<HoldingRow>) returns (holdings: Holdings)
    ensures holdings == ImportHoldings(rows)
  {
    holdings := map[];
    for i := 0 to |rows|
      invariant holdings == ImportHoldings(rows[..i])
    {
      assert rows[..i + 1][..i] == rows[..i];
      if rows[i].amount == 0 {
        continue;
      }
      var amounts := if rows[i].vault in holdings then holdings[rows[i].vault] else map[];
      holdings := holdings[rows[i].vault := amounts[rows[i].spot := rows[i].amount]];
    }
    assert rows[..|rows|] == rows;
  }

  /** No delta is collected: the rows go to a set that is dropped. */
  method ImportOrders(rows: seq<StoredOrder>, index: OrderIndex)
    requires index.View() == NO_ORDERS
    modifies index
    ensures index.View() == InsertAll(rows)
  {
    var ws := new IndexWriteSet();
    for i := 0 to |rows|
      invariant index.View() == InsertAll(rows[..i])
      invariant fresh(ws)
    {
      assert rows[..i + 1][..i] == rows[..i];
      index.InsertOrder(rows[i], ws);
    }
    assert rows[..|rows|] == rows;
  }

  method ImportLastTrades(rows: seq<LastTrade>) returns (last: map<Spot, u64>)
    ensures last == ImportTrades(rows)
  {
    last := map[];
    for i := 0 to |rows|
      invariant last == ImportTrades(rows[..i])
    {
      assert rows[..i + 1][..i] == rows[..i];
      last := last[rows[i].spot := rows[i].price];
    }
    assert rows[..|rows|] == rows;
  }

  method LoadInto(rows: Rows, index: OrderIndex, books: Books, vaultOf: map<string, string>)
    returns (last: map<Spot, u64>, holdings: Holdings, ghost l: Loaded)
    requires Typed(rows) && index.View() == NO_ORDERS
    modifies index, books
    ensures IsLoad(rows, l)
    ensures Mem(books.shards, last, index.View(), vaultOf, holdings) == Imported(l, vaultOf)
  {
    var orders := LoadOrders(rows);
    var lastTrades := LoadLastTrades(rows);
    var levels := LoadLevels(rows);
    var metas := LoadMetas(rows);
    var portfolio := LoadHoldings(rows);
    l := Loaded(orders, lastTrades, levels, metas, portfolio);
    ImportOrders(orders, index);
    last := ImportLastTrades(lastTrades);
    books.ImportFromPersist(levels, metas);
    holdings := ImportPortfolio(portfolio);
  }

  /** What the load functions return, in some order. */
  ghost predicate IsLoad(rows: Rows, l: Loaded) {
    && (forall s :: s in l.orders <==> Get(rows, OrderKey(s.id)) == Some(OrderVal(Row(s))))
    && (forall t :: t in l.lastTrades <==> Get(rows, LastTradeKey(t.spot)) == Some(Amount(AsI64(t.price))))
    && (forall r :: r in l.levels <==> StoresLevel(rows, r))
    && (forall m :: m in l.metas <==> Get(rows, BookMetaKey(m.spot)) == Some(MetaRowOf(m)))
    && (forall h :: h in l.holdings <==> StoresHolding(rows, h))
  }

  // ---- What comes back ----

  predicate Fits(raw: u64) { 0 < raw < TWO_63 }

  /** The rows hold exactly the part of memory that can be read back. */
  ghost predicate Readable(rows: Rows, m: Mem) {
    && (forall id :: Get(rows, OrderKey(id)) ==
                     if id in m.orders.orders then Some(OrderVal(Row(m.orders.orders[id]))) else None)
    && (forall spot :: Get(rows, LastTradeKey(spot)) == if spot in m.last then Some(Amount(AsI64(m.last[spot]))) else None)
    && (forall r :: StoresLevel(rows, r) <==> BookAt(m.books, r.spot).Size(r.side, r.price) == r.size && Fits(r.size))
    && (forall spot :: Get(rows, BookMetaKey(spot)) == if spot in m.books then Some(BookMetaRow(m.books[spot])) else None)
    && (forall h :: StoresHolding(rows, h) <==> HoldingAt(m.holdings, h.vault, h.spot) == h.amount && Fits(h.amount))
  }

  lemma ExportsReadable(rows: Rows, m: Mem, globals: Rows)
    requires Exports(rows, m, globals)
    ensures Readable(rows, m)
  {
    forall r: LevelRow
      ensures StoresLevel(rows, r) <==> BookAt(m.books, r.spot).Size(r.side, r.price) == r.size && Fits(r.size)
    {
      var size := BookAt(m.books, r.spot).Size(r.side, r.price);
      assert Get(rows, LevelKeyOf(r)) == NonZero(size);
      if AsI64(size) == AsI64(r.size) {
        AsI64Injective(size, r.size);
      }
    }
    forall h: HoldingRow
      ensures StoresHolding(rows, h) <==> HoldingAt(m.holdings, h.vault, h.spot) == h.amount && Fits(h.amount)
    {
      var amount := HoldingAt(m.holdings, h.vault, h.spot);
      assert Get(rows, HoldingKey(h.vault, h.spot)) == NonZero(amount);
      if AsI64(amount) == AsI64(h.amount) {
        AsI64Injective(amount, h.amount);
      }
    }
  }

  lemma MirrorsReadable(rows: Rows, m: Mem)
    requires Mirror.Mirrors(rows, m)
    ensures Readable(rows, m)
  {
    forall r: LevelRow
      ensures StoresLevel(rows, r) <==> BookAt(m.books, r.spot).Size(r.side, r.price) == r.size && Fits(r.size)
    {
      var size := BookAt(m.books, r.spot).Size(r.side, r.price);
      assert Get(rows, LevelKeyOf(r)) == Mirror.Persisted(m, LevelKeyOf(r)) == Mirror.AmountRow(size);
      if AsI64(size) == AsI64(r.size) {
        AsI64Injective(size, r.size);
      }
    }
    forall h: HoldingRow
      ensures StoresHolding(rows, h) <==> HoldingAt(m.holdings, h.vault, h.spot) == h.amount && Fits(h.amount)
    {
      var amount, k := HoldingAt(m.holdings, h.vault, h.spot), HoldingKey(h.vault, h.spot);
      assert Get(rows, k) == Mirror.Persisted(m, k) == Mirror.AmountRow(amount);
      if AsI64(amount) == AsI64(h.amount) {
        AsI64Injective(amount, h.amount);
      }
    }
  }

  /** Levels that can be read back. */
  function FitLevels(levels: Levels): Levels {
    map p | p in levels && Fits(levels[p]) :: levels[p]
  }

  /** A restored book: hydrated, without the levels that do not fit, the last fill and the recent trades. */
  function RestoredBook(b: Book): Book {
    Book(FitLevels(b.bids), FitLevels(b.asks), b.sequence, b.lastPrice, true, None, [])
  }

  function FitAmounts(amounts: map<Spot, u64>): map<Spot, u64> {
    map s | s in amounts && Fits(amounts[s]) :: amounts[s]
  }

  /** Holdings that can be read back; a vault left with none has no entry. */
  function RestoredHoldings(holdings: Holdings): Holdings {
    map v | v in holdings && FitAmounts(holdings[v]) != map[] :: FitAmounts(holdings[v])
  }

  function Restored(m: Mem, vaultOf: map<string, string>): Mem {
    Mem(map spot | spot in m.books :: RestoredBook(m.books[spot]), m.last,
        m.orders.(byUser := WithoutEmpty(m.orders.byUser)), vaultOf, RestoredHoldings(m.holdings))
  }

  // ---- Orders come back with both indexes ----

  /** Rows of one id agree and are hot. */
  ghost predicate HotAndSingle(rows: seq<StoredOrder>) {
    && (forall s :: s in rows ==> s.Hot())
    && (forall s, t :: s in rows && t in rows && s.id == t.id ==> s == t)
  }

  /** Coherent indexes over exactly the given rows. */
  ghost predicate Holds(o: Orders, rows: seq<StoredOrder>) {
    && IsRebuild(o.orders, o.byId, o.byUser)
    && (forall s :: s in rows <==> Get(o.orders, s.id) == Some(s))
    && Keyed(o.orders)
  }

  lemma RowsAfter(o: Orders, rest: seq<StoredOrder>, s: StoredOrder)
    requires (forall t :: t in rest <==> Get(o.orders, t.id) == Some(t)) && Keyed(o.orders)
    requires forall t :: t in rest && t.id == s.id ==> t == s
    ensures (forall t :: t in rest + [s] <==> Get(o.orders[s.id := s], t.id) == Some(t)) && Keyed(o.orders[s.id := s])
    ensures s.id in o.orders ==> Get(o.orders, s.id) == Some(s)
  {
    if s.id in o.orders {
      assert Get(o.orders, o.orders[s.id].id) == Some(o.orders[s.id]);
    }
  }

  lemma InsertOne(o: Orders, rest: seq<StoredOrder>, s: StoredOrder)
    requires Holds(o, rest) && s.Hot() && forall t :: t in rest && t.id == s.id ==> t == s
    ensures Holds(AddHot(o, s), rest + [s])
  {
    RowsAfter(o, rest, s);
    if s.id in o.orders {
      InsertAgain(o, s);
    } else {
      RebuildStep(o.orders, o.byId, o.byUser, s.id, s);
    }
  }

  lemma {:induction false} InsertAllRebuilds(rows: seq<StoredOrder>)
    requires HotAndSingle(rows)
    ensures Holds(InsertAll(rows), rows)
  {
    if rows != [] {
      var rest, s := rows[..|rows| - 1], rows[|rows| - 1];
      assert rows == rest + [s];
      InsertAllRebuilds(rest);
      InsertOne(InsertAll(rest), rest, s);
    }
  }

  lemma InsertAgain(o: Orders, s: StoredOrder)
    requires IsRebuild(o.orders, o.byId, o.byUser) && Get(o.orders, s.id) == Some(s)
    ensures var after := AddHot(o, s); after.orders == o.orders && IsRebuild(after.orders, after.byId, after.byUser)
  {
    var after := AddHot(o, s);
    assert after.orders == o.orders;
    forall user, id
      ensures Listed(after.byUser, user, id) <==> Belongs(o.orders, user, id)
    {
      assert Listed(o.byUser, user, id) <==> Belongs(o.orders, user, id);
      assert Listed(after.byUser, user, id) <==> Listed(o.byUser, user, id) || (user == s.UserKey() && id == s.id);
    }
  }

  lemma OrdersComeBack(rows: Rows, m: Mem, l: Loaded)
    requires IsLoad(rows, l) && Readable(rows, m) && Coherent(m.orders) && Keyed(m.orders.orders)
    ensures InsertAll(l.orders) == m.orders.(byUser := WithoutEmpty(m.orders.byUser))
  {
    forall s: StoredOrder
      ensures s in l.orders <==> Get(m.orders.orders, s.id) == Some(s)
    {
      if s.id in m.orders.orders {
        var t := m.orders.orders[s.id];
        FromRowInverts(s, Row(s));
        FromRowInverts(t, Row(t));
      }
    }
    InsertAllRebuilds(l.orders);
    var o := InsertAll(l.orders);
    forall id
      ensures Get(o.orders, id) == Get(m.orders.orders, id)
    {
      if id in o.orders {
        assert Get(o.orders, o.orders[id].id) == Some(o.orders[id]);
      }
      if id in m.orders.orders {
        assert Get(m.orders.orders, m.orders.orders[id].id) == Some(m.orders.orders[id]);
      }
    }
    SameMaps(o.orders, m.orders.orders);
    CoherentIffRebuilt(m.orders, o.byId, o.byUser);
  }

  // ---- Books, last trades and holdings come back ----

  lemma {:induction false} ImportTradesAre(rows: seq<LastTrade>)
    requires forall t, u :: t in rows && u in rows && t.spot == u.spot ==> t == u
    ensures forall t :: t in rows <==> Get(ImportTrades(rows), t.spot) == Some(t.price)
  {
    if rows != [] {
      assert rows == rows[..|rows| - 1] + [rows[|rows| - 1]];
      ImportTradesAre(rows[..|rows| - 1]);
    }
  }

  lemma TradesComeBack(rows: Rows, m: Mem, l: Loaded)
    requires IsLoad(rows, l) && Readable(rows, m)
    ensures ImportTrades(l.lastTrades) == m.last
  {
    forall t: LastTrade
      ensures t in l.lastTrades <==> Get(m.last, t.spot) == Some(t.price)
    {
      if t.spot in m.last && AsI64(m.last[t.spot]) == AsI64(t.price) {
        AsI64Injective(m.last[t.spot], t.price);
      }
    }
    ImportTradesAre(l.lastTrades);
    forall spot
      ensures Get(ImportTrades(l.lastTrades), spot) == Get(m.last, spot)
    {
      if spot in m.last {
        assert LastTrade(spot, m.last[spot]) in l.lastTrades;
      }
      if spot in ImportTrades(l.lastTrades) {
        assert LastTrade(spot, ImportTrades(l.lastTrades)[spot]) in l.lastTrades;
      }
    }
    SameMaps(ImportTrades(l.lastTrades), m.last);
  }

  function MetaBook(b: BookMeta): Book {
    EMPTY_BOOK.(sequence := b.sequence, lastPrice := b.lastPrice, hydrated := true)
  }

  lemma {:induction false} ImportMetasAre(metas: seq<BookMeta>)
    requires forall a, b :: a in metas && b in metas && a.spot == b.spot ==> a == b
    ensures forall b :: b in metas ==> Get(ImportMetas(metas), b.spot) == Some(MetaBook(b))
    ensures forall spot :: spot in ImportMetas(metas) ==>
              BookMeta(spot, ImportMetas(metas)[spot].sequence, ImportMetas(metas)[spot].lastPrice) in metas
  {
    if metas != [] {
      var rest, m := metas[..|metas| - 1], metas[|metas| - 1];
      assert metas == rest + [m];
      ImportMetasAre(rest);
    }
  }

  lemma MetasComeBack(rows: Rows, m: Mem, l: Loaded)
    requires IsLoad(rows, l) && Readable(rows, m)
    ensures ImportMetas(l.metas).Keys == m.books.Keys
    ensures forall spot :: spot in m.books ==> ImportMetas(l.metas)[spot] == MetaBook(MetaOf(spot, m.books[spot]))
  {
    forall b: BookMeta
      ensures b in l.metas <==> b.spot in m.books && b == MetaOf(b.spot, m.books[b.spot])
    {
      if b.spot in m.books {
        MetaRowInjective(b, MetaOf(b.spot, m.books[b.spot]));
        assert BookMetaRow(m.books[b.spot]) == MetaRowOf(MetaOf(b.spot, m.books[b.spot]));
      }
    }
    ImportMetasAre(l.metas);
    forall spot | spot in m.books
      ensures spot in ImportMetas(l.metas) && ImportMetas(l.metas)[spot] == MetaBook(MetaOf(spot, m.books[spot]))
    {
      assert MetaOf(spot, m.books[spot]) in l.metas;
    }
  }

  lemma MetaRowInjective(a: BookMeta, b: BookMeta)
    requires a.spot == b.spot
    ensures MetaRowOf(a) == MetaRowOf(b) <==> a == b
  {
    if MetaRowOf(a) == MetaRowOf(b) {
      AsI64Injective(a.sequence, b.sequence);
      if a.lastPrice.Some? {
        AsI64Injective(a.lastPrice.value, b.lastPrice.value);
      }
    }
  }

  lemma {:induction false} ImportLevelsKeys(shards: map<Spot, Book>, levels: seq<LevelRow>)
    requires forall r :: r in levels ==> r.spot in shards
    ensures ImportLevels(shards, levels).Keys == shards.Keys
  {
    if levels != [] {
      assert levels == levels[..|levels| - 1] + [levels[|levels| - 1]];
      ImportLevelsKeys(shards, levels[..|levels| - 1]);
    }
  }

  ghost predicate SingleLevels(levels: seq<LevelRow>) {
    forall r, s :: r in levels && s in levels && r.spot == s.spot && r.side == s.side && r.price == s.price ==> r == s
  }

  /** Importing levels touches only the levels of the books named. */
  /** What importing some levels makes of one row of one book. */
  ghost predicate RowImported(was: Book, after: Book, levels: seq<LevelRow>, row: LevelRow) {
    && after == was.(bids := after.bids, asks := after.asks)
    && (row in levels ==> Get(after.On(row.side), row.price) == Some(row.size))
    && (row.price in after.On(row.side) ==> row.(size := after.On(row.side)[row.price]) in levels)
  }

  lemma RowImportedNext(was: Book, b: Book, rest: seq<LevelRow>, last: LevelRow, row: LevelRow)
    requires RowImported(was, b, rest, row) && was.hydrated
    requires last.spot == row.spot && SingleLevels(rest + [last])
    ensures RowImported(was, b.With(last.side, b.On(last.side)[last.price := last.size]).(hydrated := true), rest + [last], row)
  {
    assert last in rest + [last];
    assert row in rest ==> row in rest + [last];
  }

  lemma RowImportedOther(was: Book, b: Book, rest: seq<LevelRow>, last: LevelRow, row: LevelRow)
    requires RowImported(was, b, rest, row) && last.spot != row.spot
    ensures RowImported(was, b, rest + [last], row)
  {
  }

  lemma {:induction false} ImportLevelsAre(shards: map<Spot, Book>, levels: seq<LevelRow>, row: LevelRow)
    requires forall r :: r in levels ==> r.spot in shards && r.size != 0
    requires row.spot in shards && shards[row.spot].hydrated && row.price !in shards[row.spot].On(row.side)
    requires SingleLevels(levels)
    ensures ImportLevels(shards, levels).Keys == shards.Keys
    ensures RowImported(shards[row.spot], ImportLevels(shards, levels)[row.spot], levels, row)
  {
    if levels != [] {
      var rest, last := levels[..|levels| - 1], levels[|levels| - 1];
      assert levels == rest + [last];
      ImportLevelsAre(shards, rest, row);
      if last.spot == row.spot {
        RowImportedNext(shards[row.spot], ImportLevels(shards, rest)[row.spot], rest, last, row);
      } else {
        RowImportedOther(shards[row.spot], ImportLevels(shards, rest)[row.spot], rest, last, row);
      }
    }
  }

  lemma LevelsLoaded(rows: Rows, m: Mem, l: Loaded)
    requires IsLoad(rows, l) && Readable(rows, m)
    ensures forall r :: r in l.levels <==> BookAt(m.books, r.spot).Size(r.side, r.price) == r.size && Fits(r.size)
    ensures forall r :: r in l.levels ==> r.spot in m.books
    ensures SingleLevels(l.levels)
  {
    assert forall r :: r in l.levels <==> StoresLevel(rows, r);
  }

  lemma BooksComeBackAt(rows: Rows, m: Mem, l: Loaded, spot: Spot, side: Side, p: u64)
    requires IsLoad(rows, l) && Readable(rows, m) && spot in m.books
    requires ImportMetas(l.metas).Keys == m.books.Keys
    requires ImportMetas(l.metas)[spot] == MetaBook(MetaOf(spot, m.books[spot]))
    ensures var after, restored := ImportLevels(ImportMetas(l.metas), l.levels), RestoredBook(m.books[spot]);
            && spot in after
            && after[spot] == restored.(bids := after[spot].bids, asks := after[spot].asks)
            && Get(after[spot].On(side), p) == Get(restored.On(side), p)
  {
    LevelsLoaded(rows, m, l);
    var row := LevelRow(spot, side, p, m.books[spot].Size(side, p));
    ImportLevelsAre(ImportMetas(l.metas), l.levels, row);
  }

  lemma BooksComeBack(rows: Rows, m: Mem, l: Loaded)
    requires IsLoad(rows, l) && Readable(rows, m)
    ensures ImportLevels(ImportMetas(l.metas), l.levels) == map spot | spot in m.books :: RestoredBook(m.books[spot])
  {
    var after := ImportLevels(ImportMetas(l.metas), l.levels);
    MetasComeBack(rows, m, l);
    LevelsLoaded(rows, m, l);
    ImportLevelsKeys(ImportMetas(l.metas), l.levels);
    forall spot | spot in m.books
      ensures after[spot] == RestoredBook(m.books[spot])
    {
      BooksComeBackAt(rows, m, l, spot, Buy, 0);
      forall p: u64
        ensures Get(after[spot].bids, p) == Get(RestoredBook(m.books[spot]).bids, p)
        ensures Get(after[spot].asks, p) == Get(RestoredBook(m.books[spot]).asks, p)
      {
        BooksComeBackAt(rows, m, l, spot, Buy, p);
        BooksComeBackAt(rows, m, l, spot, Sell, p);
      }
      SameMaps(after[spot].bids, RestoredBook(m.books[spot]).bids);
      SameMaps(after[spot].asks, RestoredBook(m.books[spot]).asks);
    }
  }

  lemma {:induction false} ImportHoldingsAre(rows: seq<HoldingRow>)
    requires forall h :: h in rows ==> h.amount != 0
    requires forall h, g :: h in rows && g in rows && h.vault == g.vault && h.spot == g.spot ==> h == g
    ensures var after := ImportHoldings(rows);
            && (forall h: HoldingRow :: h in rows <==> h.amount != 0 && HoldingAt(after, h.vault, h.spot) == h.amount)
            && (forall v :: v in after ==> after[v] != map[])
            && (forall v, s :: v in after && s in after[v] ==> after[v][s] != 0)
  {
    if rows != [] {
      var rest, h := rows[..|rows| - 1], rows[|rows| - 1];
      assert rows == rest + [h];
      ImportHoldingsAre(rest);
      var before, after := ImportHoldings(rest), ImportHoldings(rows);
      forall v, s
        ensures HoldingAt(after, v, s) == if v == h.vault && s == h.spot then h.amount else HoldingAt(before, v, s)
      {
      }
      assert h.spot in after[h.vault];
    }
  }

  lemma HoldingsComeBack(rows: Rows, m: Mem, l: Loaded)
    requires IsLoad(rows, l) && Readable(rows, m)
    ensures ImportHoldings(l.holdings) == RestoredHoldings(m.holdings)
  {
    var after := ImportHoldings(l.holdings);
    assert forall h :: h in l.holdings <==> HoldingAt(m.holdings, h.vault, h.spot) == h.amount && Fits(h.amount);
    ImportHoldingsAre(l.holdings);
    forall v, s
      ensures HoldingAt(after, v, s) == if Fits(HoldingAt(m.holdings, v, s)) then HoldingAt(m.holdings, v, s) else 0
    {
      assert HoldingRow(v, s, HoldingAt(m.holdings, v, s)) in l.holdings <==> Fits(HoldingAt(m.holdings, v, s));
      assert HoldingAt(after, v, s) != 0 ==> HoldingRow(v, s, HoldingAt(after, v, s)) in l.holdings;
    }
    forall v
      ensures Get(after, v) == Get(RestoredHoldings(m.holdings), v)
    {
      HoldingsOf(after, m.holdings, v);
    }
    SameMaps(after, RestoredHoldings(m.holdings));
  }

  lemma HoldingsOf(after: Holdings, holdings: Holdings, v: string)
    requires forall s :: HoldingAt(after, v, s) == if Fits(HoldingAt(holdings, v, s)) then HoldingAt(holdings, v, s) else 0
    requires v in after ==> after[v] != map[] && forall s :: s in after[v] ==> after[v][s] != 0
    ensures Get(after, v) == Get(RestoredHoldings(holdings), v)
  {
    var fit := FitAmounts(Get(holdings, v).GetOr(map[]));
    var got := Get(after, v).GetOr(map[]);
    forall s
      ensures Get(got, s) == Get(fit, s)
    {
      assert HoldingAt(after, v, s) == if Fits(HoldingAt(holdings, v, s)) then HoldingAt(holdings, v, s) else 0;
    }
    SameMaps(got, fit);
  }

  /** Loading readable rows into an empty index restores memory. */
  lemma LoadRestores(rows: Rows, m: Mem, l: Loaded, vaultOf: map<string, string>)
    requires IsLoad(rows, l) && Readable(rows, m) && Coherent(m.orders) && Keyed(m.orders.orders)
    ensures Imported(l, vaultOf) == Restored(m, vaultOf)
  {
    OrdersComeBack(rows, m, l);
    TradesComeBack(rows, m, l);
    BooksComeBack(rows, m, l);
    HoldingsComeBack(rows, m, l);
  }

  /**
   Save and load: the full write set of any coherent memory, applied to whatever the tables hold while
   nothing else is unwritten, then loaded into an empty index, gives memory back: orders with both
   indexes, sequences, last trades, and every level and holding that can be read back.
   */
  lemma RoundTrip(m: Mem, globals: Rows, ws: WriteSet, db: Db, l: Loaded, vaultOf: map<string, string>)
    requires Coherent(m.orders) && Keyed(m.orders.orders)
    requires ws.fullReplace && Exports(ws.delta.store, m, globals)
    requires IsLoad(ApplyWriteSet(ws, db).rows, l)
    ensures ApplyWriteSet(ws, db).rows == ws.delta.store
    ensures Imported(l, vaultOf) == Restored(m, vaultOf)
  {
    FullReplaceIsExact(db.rows.Keys, ws, db);
    ExportsReadable(ws.delta.store, m, globals);
    LoadRestores(ws.delta.store, m, l, vaultOf);
  }

  /** Tables kept up to date block by block restore the same memory as a full write. */
  lemma MirrorRoundTrip(rows: Rows, m: Mem, l: Loaded, vaultOf: map<string, string>)
    requires Coherent(m.orders) && Keyed(m.orders.orders)
    requires Mirror.Mirrors(rows, m) && IsLoad(rows, l)
    ensures Imported(l, vaultOf) == Restored(m, vaultOf)
  {
    MirrorsReadable(rows, m);
    LoadRestores(rows, m, l, vaultOf);
  }

  /** Every level and every holding is below 2^63. */
  ghost predicate AllFit(m: Mem) {
    && (forall spot, side, p :: BookAt(m.books, spot).Size(side, p) < TWO_63)
    && (forall v, s :: HoldingAt(m.holdings, v, s) < TWO_63)
  }

  ghost predicate SameAmounts(a: Mem, b: Mem) {
    && (forall spot, side, p :: BookAt(a.books, spot).Size(side, p) == BookAt(b.books, spot).Size(side, p))
    && (forall v, s :: HoldingAt(a.holdings, v, s) == HoldingAt(b.holdings, v, s))
  }

  lemma RestoredAmounts(m: Mem, vaultOf: map<string, string>, spot: Spot, side: Side, p: u64, v: string)
    ensures var r, size := Restored(m, vaultOf), BookAt(m.books, spot).Size(side, p);
            BookAt(r.books, spot).Size(side, p) == if size < TWO_63 then size else 0
    ensures var r, amount := Restored(m, vaultOf), HoldingAt(m.holdings, v, spot);
            HoldingAt(r.holdings, v, spot) == if amount < TWO_63 then amount else 0
  {
    var amounts := Get(m.holdings, v).GetOr(map[]);
    if FitAmounts(amounts) == map[] {
      assert spot !in FitAmounts(amounts);
    }
  }

  /** All amounts survive the round trip exactly when every one is below 2^63. */
  lemma AmountsSurviveIff(m: Mem, vaultOf: map<string, string>)
    ensures SameAmounts(Restored(m, vaultOf), m) <==> AllFit(m)
  {
    if AllFit(m) {
      forall spot, side, p
        ensures BookAt(Restored(m, vaultOf).books, spot).Size(side, p) == BookAt(m.books, spot).Size(side, p)
      {
        RestoredAmounts(m, vaultOf, spot, side, p, "");
      }
      forall v, s
        ensures HoldingAt(Restored(m, vaultOf).holdings, v, s) == HoldingAt(m.holdings, v, s)
      {
        RestoredAmounts(m, vaultOf, s, Buy, 0, v);
      }
    } else if spot, side, p :| BookAt(m.books, spot).Size(side, p) >= TWO_63 {
      RestoredAmounts(m, vaultOf, spot, side, p, "");
    } else {
      var v, s :| HoldingAt(m.holdings, v, s) >= TWO_63;
      RestoredAmounts(m, vaultOf, s, Buy, 0, v);
    }
  }

  /** The rows of a full write set are typed, as the load functions need them. */
  lemma ExportsTyped(rows: Rows, m: Mem, globals: Rows)
    requires Exports(rows, m, globals) && Keyed(m.orders.orders)
    requires OnlyGlobals(globals) && forall k :: k in globals ==> globals[k].Payload?
    ensures Typed(rows)
  {
    forall k | k in rows
      ensures Get(rows, k) == ExportRow(m, globals, k)
    {
    }
  }
}
