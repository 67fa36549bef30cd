/** Order books of src/indexer/books.rs: price levels, sequence numbers, recent trades, deltas. */
module Books {
  import opened Ints
  import opened WriteSets
  import opened Formatting

  const RECENT_TRADE_LIMIT: nat := 50

  datatype FillKey = FillKey(blockNum: u64, price: u64, size: u64)

  datatype Trade = Trade(side: Side, price: string, size: string, timeMs: u64, blockNum: u64)

  type Levels = map<u64, u64>

  datatype Book = Book(
    bids: Levels, asks: Levels, sequence: u64, lastPrice: Option<u64>, hydrated: bool,
    lastFill: Option<FillKey>, trades: seq<Trade>)
  {
    function On(side: Side): Levels {
      if side.Buy? then bids else asks
    }

    function With(side: Side, levels: Levels): Book {
      if side.Buy? then this.(bids := levels) else this.(asks := levels)
    }

    function Size(side: Side, price: u64): u64 {
      Get(On(side), price).GetOr(0)
    }

    /** No level of size zero is stored. */
    ghost predicate NoEmptyLevel() {
      forall side: Side, p: u64 :: p in On(side) ==> On(side)[p] > 0
    }
  }

  const EMPTY_BOOK := Book(map[], map[], 0, None, false, None, [])

  function BookAt(shards: map<Spot, Book>, spot: Spot): Book {
    Get(shards, spot).GetOr(EMPTY_BOOK)
  }

  // ---- What the chain node answers when asked for a book ----

  datatype ChainLevel = ChainLevel(price: u64, quantity: u64)
  datatype ChainBook = ChainBook(bids: seq<ChainLevel>, asks: seq<ChainLevel>)
  {
    function On(side: Side): seq<ChainLevel> {
      if side.Buy? then bids else asks
    }
  }

  // ---- Specification of one change ----

  function Latest(newer: Option<u64>, older: Option<u64>): Option<u64> {
    if newer.Some? then newer else older
  }

  /** One level moves by `amount`, the sequence moves by one. */
  function ChangeLevel(b: Book, side: Side, price: u64, amount: u64, isAdd: bool, last: Option<u64>): Book {
    var next := if isAdd then SatAdd(b.Size(side, price), amount) else SatSub(b.Size(side, price), amount);
    b.With(side, SetAmount(b.On(side), price, next))
    .(sequence := SatAdd(b.sequence, 1), lastPrice := Latest(last, b.lastPrice))
  }

  function BookMetaRow(b: Book): RowVal {
    BookMetaVal(AsI64(b.sequence), match b.lastPrice case None => None case Some(p) => Some(AsI64(p)))
  }

  /** The rows touched by a level change that led to `after`. */
  function CollectLevel(d: Delta, spot: Spot, after: Book, side: Side, price: u64): Delta {
    d.PutAmount(LevelKey(spot, side, AsI64(price)), AsI64(after.Size(side, price)))
    .Put(BookMetaKey(spot), BookMetaRow(after))
  }

  function InsertLevels(levels: Levels, quotes: seq<ChainLevel>): Levels {
    if quotes == [] then levels
    else
      var rest, q := InsertLevels(levels, quotes[..|quotes| - 1]), quotes[|quotes| - 1];
      if q.quantity > 0 then rest[q.price := q.quantity] else rest
  }

  function HydrateBook(b: Book, chain: ChainBook, last: Option<u64>): Book {
    b.(bids := InsertLevels(map[], chain.bids), asks := InsertLevels(map[], chain.asks),
       sequence := SatAdd(b.sequence, 1), lastPrice := Latest(last, b.lastPrice), hydrated := true)
  }

  function LevelKeys(spot: Spot, side: Side, levels: Levels): set<RowKey> {
    set p | p in levels :: LevelKey(spot, side, AsI64(p))
  }

  lemma LevelKeysInsert(spot: Spot, side: Side, levels: Levels, price: u64)
    ensures LevelKeys(spot, side, levels[price := 0]) ==
            LevelKeys(spot, side, levels) + {LevelKey(spot, side, AsI64(price))}
  {
  }

  function DropAll(d: Delta, keys: set<RowKey>): Delta {
    Delta(d.store - keys, d.del + keys)
  }

  function CollectQuotes(d: Delta, spot: Spot, side: Side, quotes: seq<ChainLevel>): Delta {
    if quotes == [] then d
    else
      var rest, q := CollectQuotes(d, spot, side, quotes[..|quotes| - 1]), quotes[|quotes| - 1];
      if q.quantity > 0 then rest.PutAmount(LevelKey(spot, side, AsI64(q.price)), AsI64(q.quantity)) else rest
  }

  /** Deletes every old level, stores every level of the chain's book, then the meta row. */
  function CollectHydration(d: Delta, spot: Spot, b: Book, chain: ChainBook, last: Option<u64>): Delta {
    var dropped := DropAll(DropAll(d, LevelKeys(spot, Buy, b.bids)), LevelKeys(spot, Sell, b.asks));
    CollectQuotes(CollectQuotes(dropped, spot, Buy, chain.bids), spot, Sell, chain.asks)
    .Put(BookMetaKey(spot), BookMetaRow(HydrateBook(b, chain, last)))
  }

  /** What an order event asks of the book. */
  datatype BookOp =
    | BookCreated(side: Side, price: u64, amount: u64)
    | BookCancelled(side: Side, price: u64, amount: u64)
    | BookUpdated(side: Side, price: u64, oldAmount: u64, newAmount: u64, remaining: u64)
    | BookFilled(side: Side, price: u64, amount: u64, lastPrice: u64, timeMs: u64)

  /** The level change of an event: amount and direction; `None` when the event leaves the book alone. */
  datatype Edit = Edit(amount: u64, isAdd: bool)

  function OldRemaining(oldAmount: u64, newAmount: u64, remaining: u64): u64 {
    SatSub(oldAmount, SatSub(newAmount, remaining))
  }

  function EditOf(op: BookOp): Option<Edit> {
    if op.price == 0 then None
    else
      match op
      case BookCreated(_, _, amount) => if amount == 0 then None else Some(Edit(amount, true))
      case BookCancelled(_, _, amount) => if amount == 0 then None else Some(Edit(amount, false))
      case BookFilled(_, _, amount, _, _) => if amount == 0 then None else Some(Edit(amount, false))
      case BookUpdated(_, _, oldAmount, newAmount, remaining) =>
        var before := OldRemaining(oldAmount, newAmount, remaining);
        if before == remaining then None
        else if remaining > before then Some(Edit(remaining - before, true))
        else Some(Edit(before - remaining, false))
  }

  function PushTrade(trades: seq<Trade>, t: Trade): (r: seq<Trade>)
    ensures |trades| <= RECENT_TRADE_LIMIT ==> |r| <= RECENT_TRADE_LIMIT
  {
    var all := [t] + trades;
    if |all| > RECENT_TRADE_LIMIT then all[..RECENT_TRADE_LIMIT] else all
  }

  function OpTrade(op: BookOp, blockNum: u64): Trade
    requires op.BookFilled?
  {
    Trade(op.side, FormatPricePieces(op.price), FormatTokenAmount(op.amount), op.timeMs, blockNum)
  }

  /** A fill equal to the previous one is the other side of the same trade and is not listed again. */
  function FillTrade(b: Book, op: BookOp, blockNum: u64): Option<Trade>
    requires op.BookFilled?
  {
    if b.lastFill == Some(FillKey(blockNum, op.price, op.amount)) then None else Some(OpTrade(op, blockNum))
  }

  function FillBook(b: Book, op: BookOp, blockNum: u64): Book
    requires op.BookFilled?
  {
    var trade := FillTrade(b, op, blockNum);
    b.(lastFill := Some(FillKey(blockNum, op.price, op.amount)),
       trades := if trade.None? then b.trades else PushTrade(b.trades, trade.value))
  }

  function OpBook(b: Book, op: BookOp, blockNum: u64): Book
    requires EditOf(op).Some?
  {
    var edit := EditOf(op).value;
    if op.BookFilled? then
      FillBook(ChangeLevel(b, op.side, op.price, edit.amount, edit.isAdd, Some(op.lastPrice)), op, blockNum)
    else
      ChangeLevel(b, op.side, op.price, edit.amount, edit.isAdd, None)
  }

  lemma FilledBook(b: Book, op: BookOp, blockNum: u64)
    requires op.BookFilled? && op.price > 0 && op.amount > 0
    ensures EditOf(op) == Some(Edit(op.amount, false))
    ensures var changed := ChangeLevel(b, op.side, op.price, op.amount, false, Some(op.lastPrice));
            && OpBook(b, op, blockNum) == FillBook(changed, op, blockNum)
            && OpMessage(b, op, blockNum) == DeltaOf(changed, op.side, op.price, blockNum)
                                             .(trade := FillTrade(changed, op, blockNum))
            && forall d: Delta, spot: Spot ::
                 CollectLevel(d, spot, changed, op.side, op.price) == CollectLevel(d, spot, OpBook(b, op, blockNum), op.side, op.price)
  {
  }

  function OpShards(shards: map<Spot, Book>, spot: Spot, op: BookOp, blockNum: u64): map<Spot, Book> {
    if EditOf(op).None? then shards else shards[spot := OpBook(BookAt(shards, spot), op, blockNum)]
  }

  function CollectBookOp(d: Delta, spot: Spot, b: Book, op: BookOp, blockNum: u64): Delta {
    if EditOf(op).None? then d else CollectLevel(d, spot, OpBook(b, op, blockNum), op.side, op.price)
  }

  // ---- Messages of the delta feed ----

  datatype LevelText = LevelText(price: string, size: string)

  datatype BookDelta = BookDelta(
    sequence: u64, blockNum: u64, bids: seq<LevelText>, asks: seq<LevelText>,
    lastPrice: Option<string>, trade: Option<Trade>)

  function PriceText(price: Option<u64>): Option<string> {
    match price case None => None case Some(p) => Some(FormatPricePieces(p))
  }

  /** What subscribers learn of a change that led to `after`. */
  function DeltaOf(after: Book, side: Side, price: u64, blockNum: u64): BookDelta {
    var text := LevelText(FormatPricePieces(price), FormatTokenAmount(after.Size(side, price)));
    BookDelta(after.sequence, blockNum,
              if side.Buy? then [text] else [], if side.Buy? then [] else [text],
              PriceText(after.lastPrice), None)
  }

  function OpMessage(b: Book, op: BookOp, blockNum: u64): BookDelta
    requires EditOf(op).Some?
  {
    DeltaOf(OpBook(b, op, blockNum), op.side, op.price, blockNum)
    .(trade := if op.BookFilled? then FillTrade(b, op, blockNum) else None)
  }

  datatype LevelRow = LevelRow(spot: Spot, side: Side, price: u64, size: u64)
  datatype BookMeta = BookMeta(spot: Spot, sequence: u64, lastPrice: Option<u64>)

  class Books {
    var shards: map<Spot, Book>

    constructor ()
      ensures shards == map[]
    {
      shards := map[];
    }

    method ApplyLevelChange(spot: Spot, side: Side, price: u64, amount: u64, isAdd: bool, blockNum: u64,
                            last: Option<u64>, ws: IndexWriteSet) returns (delta: BookDelta)
      modifies this, ws`toStore, ws`toDelete
      ensures var after := ChangeLevel(BookAt(old(shards), spot), side, price, amount, isAdd, last);
              && shards == old(shards)[spot := after]
              && ws.Changes() == CollectLevel(old(ws.Changes()), spot, after, side, price)
              && delta == DeltaOf(after, side, price, blockNum)
    {
      var book := BookAt(shards, spot);
      var current := book.Size(side, price);
      var next := if isAdd then SatAdd(current, amount) else SatSub(current, amount);
      var levels, text := StoreOrRemoveLevel(book.On(side), spot, side, price, next, ws);
      book := book.With(side, levels);
      book := book.(sequence := SatAdd(book.sequence, 1), lastPrice := Latest(last, book.lastPrice));
      ws.Store(BookMetaKey(spot), BookMetaRow(book));
      shards := shards[spot := book];
      delta := BookDelta(book.sequence, blockNum, if side.Buy? then [text] else [],
                         if side.Buy? then [] else [text], PriceText(book.lastPrice), None);
    }

    /** Level, row and message of one price that now has size `next`. */
    static method StoreOrRemoveLevel(current: Levels, spot: Spot, side: Side, price: u64, next: u64, ws: IndexWriteSet)
      returns (levels: Levels, text: LevelText)
      modifies ws`toStore, ws`toDelete
      ensures levels == SetAmount(current, price, next)
      ensures ws.Changes() == old(ws.Changes()).PutAmount(LevelKey(spot, side, AsI64(price)), AsI64(next))
      ensures text == LevelText(FormatPricePieces(price), FormatTokenAmount(next))
    {
      if next == 0 {
        levels := current - {price};
        ws.Delete(LevelKey(spot, side, AsI64(price)));
        PositiveNotZero(0);
        text := LevelText(FormatPricePieces(price), "0");
      } else {
        levels := current[price := next];
        ws.StoreBookLevel(spot, side, AsI64(price), AsI64(next));
        text := LevelText(FormatPricePieces(price), FormatTokenAmount(next));
      }
    }

    method ApplyCreated(spot: Spot, side: Side, price: u64, amount: u64, blockNum: u64, publish: bool,
                        ws: IndexWriteSet) returns (sent: Option<BookDelta>)
      modifies this, ws`toStore, ws`toDelete
      ensures Applied(BookCreated(side, price, amount), spot, blockNum, publish, old(shards), shards,
                      old(ws.Changes()), ws.Changes(), sent)
    {
      if price == 0 || amount == 0 {
        return None;
      }
      var delta := ApplyLevelChange(spot, side, price, amount, true, blockNum, None, ws);
      sent := if publish then Some(delta) else None;
    }

    method ApplyCancelled(spot: Spot, side: Side, price: u64, amount: u64, blockNum: u64, publish: bool,
                          ws: IndexWriteSet) returns (sent: Option<BookDelta>)
      modifies this, ws`toStore, ws`toDelete
      ensures Applied(BookCancelled(side, price, amount), spot, blockNum, publish, old(shards), shards,
                      old(ws.Changes()), ws.Changes(), sent)
    {
      if price == 0 || amount == 0 {
        return None;
      }
      var delta := ApplyLevelChange(spot, side, price, amount, false, blockNum, None, ws);
      sent := if publish then Some(delta) else None;
    }

    method ApplyUpdated(spot: Spot, side: Side, price: u64, oldAmount: u64, newAmount: u64, remaining: u64,
                        blockNum: u64, publish: bool, ws: IndexWriteSet) returns (sent: Option<BookDelta>)
      modifies this, ws`toStore, ws`toDelete
      ensures Applied(BookUpdated(side, price, oldAmount, newAmount, remaining), spot, blockNum, publish,
                      old(shards), shards, old(ws.Changes()), ws.Changes(), sent)
    {
      if price == 0 {
        return None;
      }
      var filled := SatSub(newAmount, remaining);
      var before := SatSub(oldAmount, filled);
      if before == remaining {
        return None;
      }
      var isAdd := remaining > before;
      var amount := if isAdd then remaining - before else before - remaining;
      ghost var op := BookUpdated(side, price, oldAmount, newAmount, remaining);
      assert EditOf(op) == Some(Edit(amount, isAdd));
      var delta := ApplyLevelChange(spot, side, price, amount, isAdd, blockNum, None, ws);
      sent := if publish then Some(delta) else None;
    }

    method ApplyFilled(spot: Spot, side: Side, price: u64, amount: u64, blockNum: u64, lastPrice: u64,
                       timeMs: u64, publish: bool, ws: IndexWriteSet) returns (sent: Option<BookDelta>)
      modifies this, ws`toStore, ws`toDelete
      ensures Applied(BookFilled(side, price, amount, lastPrice, timeMs), spot, blockNum, publish,
                      old(shards), shards, old(ws.Changes()), ws.Changes(), sent)
    {
      if price == 0 || amount == 0 {
        return None;
      }
      ghost var before := BookAt(shards, spot);
      var op := BookFilled(side, price, amount, lastPrice, timeMs);
      FilledBook(before, op, blockNum);
      var delta := ApplyLevelChange(spot, side, price, amount, false, blockNum, Some(lastPrice), ws);
      var trade := RecordFill(spot, op, blockNum);
      sent := if publish then Some(delta.(trade := trade)) else None;
    }

    /** Keeps the newest trades first. */
    method RecordFill(spot: Spot, op: BookOp, blockNum: u64) returns (trade: Option<Trade>)
      requires op.BookFilled? && spot in shards
      modifies this
      ensures trade == FillTrade(old(shards)[spot], op, blockNum)
      ensures shards == old(shards)[spot := FillBook(old(shards)[spot], op, blockNum)]
    {
      var book := shards[spot];
      var fill := FillKey(blockNum, op.price, op.amount);
      var trades := book.trades;
      if book.lastFill == Some(fill) {
        trade := None;
      } else {
        trade := Some(OpTrade(op, blockNum));
        trades := [OpTrade(op, blockNum)] + trades;
        if |trades| > RECENT_TRADE_LIMIT {
          trades := trades[..RECENT_TRADE_LIMIT];
        }
      }
      shards := shards[spot := book.(lastFill := Some(fill), trades := trades)];
    }

    method HydrateFromChain(spot: Spot, chain: ChainBook, last: Option<u64>, ws: IndexWriteSet)
      modifies this, ws`toStore, ws`toDelete
      ensures shards == old(shards)[spot := HydrateBook(BookAt(old(shards), spot), chain, last)]
      ensures ws.Changes() == CollectHydration(old(ws.Changes()), spot, BookAt(old(shards), spot), chain, last)
    {
      var book := BookAt(shards, spot);
      DeleteLevels(spot, Buy, book.bids, ws);
      DeleteLevels(spot, Sell, book.asks, ws);
      var bids := StoreQuotes(spot, Buy, chain.bids, ws);
      var asks := StoreQuotes(spot, Sell, chain.asks, ws);
      book := book.(bids := bids, asks := asks, sequence := SatAdd(book.sequence, 1));
      if last.Some? {
        book := book.(lastPrice := last);
      }
      book := book.(hydrated := true);
      ws.Store(BookMetaKey(spot), BookMetaRow(book));
      shards := shards[spot := book];
    }

    static method DeleteLevels(spot: Spot, side: Side, levels: Levels, ws: IndexWriteSet)
      modifies ws`toStore, ws`toDelete
      ensures ws.Changes() == DropAll(old(ws.Changes()), LevelKeys(spot, side, levels))
    {
      var todo := levels.Keys;
      ghost var done: Levels := map[];
      while todo != {}
        invariant todo !! done.Keys && todo + done.Keys == levels.Keys
        invariant ws.Changes() == DropAll(old(ws.Changes()), LevelKeys(spot, side, done))
      {
        var price :| price in todo;
        ws.Delete(LevelKey(spot, side, AsI64(price)));
        LevelKeysInsert(spot, side, done, price);
        todo, done := todo - {price}, done[price := 0];
      }
      assert LevelKeys(spot, side, done) == LevelKeys(spot, side, levels);
    }

    static method StoreQuotes(spot: Spot, side: Side, quotes: seq<ChainLevel>, ws: IndexWriteSet)
      returns (levels: Levels)
      modifies ws`toStore, ws`toDelete
      ensures levels == InsertLevels(map[], quotes)
      ensures ws.Changes() == CollectQuotes(old(ws.Changes()), spot, side, quotes)
    {
      levels := map[];
      for i := 0 to |quotes|
        invariant levels == InsertLevels(map[], quotes[..i])
        invariant ws.Changes() == CollectQuotes(old(ws.Changes()), spot, side, quotes[..i])
      {
        assert quotes[..i + 1][..i] == quotes[..i];
        if quotes[i].quantity > 0 {
          levels := levels[quotes[i].price := quotes[i].quantity];
          ws.StoreBookLevel(spot, side, AsI64(quotes[i].price), AsI64(quotes[i].quantity));
        }
      }
      assert quotes[..|quotes|] == quotes;
    }

    method ImportFromPersist(levels: seq<LevelRow>, metas: seq<BookMeta>)
      modifies this
      ensures shards == ImportLevels(ImportMetas(metas), levels)
    {
      shards := map[];
      for i := 0 to |metas|
        invariant shards == ImportMetas(metas[..i])
      {
        assert metas[..i + 1][..i] == metas[..i];
        var book := BookAt(shards, metas[i].spot);
        book := book.(sequence := metas[i].sequence, lastPrice := metas[i].lastPrice, hydrated := true);
        shards := shards[metas[i].spot := book];
      }
      assert metas[..|metas|] == metas;
      for i := 0 to |levels|
        invariant shards == ImportLevels(ImportMetas(metas), levels[..i])
      {
        assert levels[..i + 1][..i] == levels[..i];
        var row := levels[i];
        if row.size == 0 {
          continue;
        }
        var book := BookAt(shards, row.spot);
        book := book.With(row.side, book.On(row.side)[row.price := row.size]);
        shards := shards[row.spot := book.(hydrated := true)];
      }
      assert levels[..|levels|] == levels;
    }
  }

  function ImportMetas(metas: seq<BookMeta>): map<Spot, Book> {
    if metas == [] then map[]
    else
      var rest, m := ImportMetas(metas[..|metas| - 1]), metas[|metas| - 1];
      rest[m.spot := BookAt(rest, m.spot).(sequence := m.sequence, lastPrice := m.lastPrice, hydrated := true)]
  }

  function ImportLevels(shards: map<Spot, Book>, levels: seq<LevelRow>): map<Spot, Book> {
    if levels == [] then shards
    else
      var rest, row := ImportLevels(shards, levels[..|levels| - 1]), levels[|levels| - 1];
      if row.size == 0 then rest
      else
        var b := BookAt(rest, row.spot);
        rest[row.spot := b.With(row.side, b.On(row.side)[row.price := row.size]).(hydrated := true)]
  }

  /** Contract shared by the four event methods: new books, collected rows and published message. */
  ghost predicate Applied(op: BookOp, spot: Spot, blockNum: u64, publish: bool, before: map<Spot, Book>,
                          after: map<Spot, Book>, collected: Delta, collects: Delta, sent: Option<BookDelta>)
  {
    && after == OpShards(before, spot, op, blockNum)
    && collects == CollectBookOp(collected, spot, BookAt(before, spot), op, blockNum)
    && sent == if publish && EditOf(op).Some? then Some(OpMessage(BookAt(before, spot), op, blockNum)) else None
  }

  /** Level sizes after an operation: only the named level moves. */
  lemma OpLevels(b: Book, op: BookOp, blockNum: u64, side: Side)
    requires EditOf(op).Some?
    ensures var edit := EditOf(op).value;
            var size := b.Size(op.side, op.price);
            OpBook(b, op, blockNum).On(side) ==
            if side != op.side then b.On(side)
            else SetAmount(b.On(side), op.price, if edit.isAdd then SatAdd(size, edit.amount) else SatSub(size, edit.amount))
  {
  }

  /** Books never store an empty level: every change and every hydration keeps that. */
  lemma NoEmptyLevelKept(b: Book, op: BookOp, blockNum: u64, chain: ChainBook, last: Option<u64>)
    requires b.NoEmptyLevel()
    ensures EditOf(op).Some? ==> OpBook(b, op, blockNum).NoEmptyLevel()
    ensures HydrateBook(b, chain, last).NoEmptyLevel()
  {
    if EditOf(op).Some? {
      forall side: Side, p: u64 | p in OpBook(b, op, blockNum).On(side)
        ensures OpBook(b, op, blockNum).On(side)[p] > 0
      {
        OpLevels(b, op, blockNum, side);
        assert p in b.On(side) ==> b.On(side)[p] > 0;
      }
    }
    QuotesPositive(chain.bids);
    QuotesPositive(chain.asks);
  }

  lemma {:induction false} QuotesPositive(quotes: seq<ChainLevel>)
    ensures forall p :: p in InsertLevels(map[], quotes) ==> InsertLevels(map[], quotes)[p] > 0
  {
    if quotes != [] {
      QuotesPositive(quotes[..|quotes| - 1]);
    }
  }
}
