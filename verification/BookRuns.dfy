/**
 What a book remembers over any run of operations and hydrations (src/indexer/books.rs): its last price, its
 latest fill and its list of recent trades, told from the run alone.
 */
module BookRuns {
  import opened Ints
  import opened WriteSets
  import opened Books
  import opened Formatting

  datatype BookStep = Operation(op: BookOp, blockNum: u64) | Hydrated(chain: ChainBook, last: Option<u64>)

  function Next(b: Book, s: BookStep): Book {
    match s
    case Operation(op, blockNum) => if EditOf(op).None? then b else OpBook(b, op, blockNum)
    case Hydrated(chain, last) => HydrateBook(b, chain, last)
  }

  function RunBook(b: Book, steps: seq<BookStep>, n: nat): Book
    requires n <= |steps|
  {
    if n == 0 then b else Next(RunBook(b, steps, n - 1), steps[n - 1])
  }

  /** A fill that takes something off a level. */
  predicate Fills(s: BookStep) {
    s.Operation? && s.op.BookFilled? && s.op.price > 0 && s.op.amount > 0
  }

  /** The price a step brings. */
  predicate Brings(s: BookStep, price: u64) {
    (Fills(s) && s.op.lastPrice == price) || (s.Hydrated? && s.last == Some(price))
  }

  predicate BringsNone(s: BookStep) {
    !Fills(s) && (s.Hydrated? ==> s.last.None?)
  }

  /** Step i of the first n has the property, and none after it has. */
  ghost predicate LatestAt(steps: seq<BookStep>, n: nat, i: nat, none: BookStep -> bool)
    requires n <= |steps|
  {
    i < n && !none(steps[i]) && forall j :: i < j < n ==> none(steps[j])
  }

  ghost predicate NeverIn(steps: seq<BookStep>, n: nat, none: BookStep -> bool)
    requires n <= |steps|
  {
    forall j :: 0 <= j < n ==> none(steps[j])
  }

  // ---- The last price ----

  lemma NextPrice(b: Book, s: BookStep)
    ensures forall p: u64 :: Brings(s, p) ==> Next(b, s).lastPrice == Some(p)
    ensures BringsNone(s) ==> Next(b, s).lastPrice == b.lastPrice
  {
  }

  /**
   The last price is the one brought by the latest fill that had an effect or hydration that knew a price,
   whichever came later, and the first one as long as there was neither.
   */
  lemma {:induction false} LastPriceIsLatest(b: Book, steps: seq<BookStep>, n: nat, i: nat, price: u64)
    requires n <= |steps|
    ensures LatestAt(steps, n, i, BringsNone) && Brings(steps[i], price) ==> RunBook(b, steps, n).lastPrice == Some(price)
    ensures NeverIn(steps, n, BringsNone) ==> RunBook(b, steps, n).lastPrice == b.lastPrice
  {
    if n > 0 {
      NextPrice(RunBook(b, steps, n - 1), steps[n - 1]);
      LastPriceIsLatest(b, steps, n - 1, i, price);
      if LatestAt(steps, n, i, BringsNone) && i < n - 1 {
        assert BringsNone(steps[n - 1]) && LatestAt(steps, n - 1, i, BringsNone);
      }
    }
  }

  /** A step brings a price or it does not, so the two cases are all there are. */
  lemma {:induction false} SomeLatest(steps: seq<BookStep>, n: nat, none: BookStep -> bool) returns (i: nat)
    requires n <= |steps| && !NeverIn(steps, n, none)
    ensures LatestAt(steps, n, i, none)
  {
    if none(steps[n - 1]) {
      i := SomeLatest(steps, n - 1, none);
    } else {
      i := n - 1;
    }
  }

  /** The message of an operation prints the last price after it, the number and the block. */
  lemma MessageTells(b: Book, op: BookOp, blockNum: u64)
    requires EditOf(op).Some?
    ensures var sent, after := OpMessage(b, op, blockNum), Next(b, Operation(op, blockNum));
            && sent.blockNum == blockNum && sent.sequence == after.sequence
            && (after.lastPrice.None? ==> sent.lastPrice.None?)
            && (after.lastPrice.Some? ==> sent.lastPrice == Some(FormatPricePieces(after.lastPrice.value)))
            && (op.BookFilled? ==> sent.lastPrice == Some(FormatPricePieces(op.lastPrice)))
  {
  }

  // ---- The latest fill and the recent trades ----

  predicate NoFill(s: BookStep) {
    !Fills(s)
  }

  function KeyOf(s: BookStep): FillKey
    requires Fills(s)
  {
    FillKey(s.blockNum, s.op.price, s.op.amount)
  }

  lemma NextFill(b: Book, s: BookStep)
    ensures Next(b, s).lastFill == if Fills(s) then Some(KeyOf(s)) else b.lastFill
    ensures !Fills(s) ==> Next(b, s).trades == b.trades
  {
  }

  /** The fill a book compares the next one with is the latest one that had an effect. */
  lemma {:induction false} LastFillIsLatest(b: Book, steps: seq<BookStep>, n: nat, i: nat)
    requires n <= |steps|
    ensures LatestAt(steps, n, i, NoFill) ==> RunBook(b, steps, n).lastFill == Some(KeyOf(steps[i]))
    ensures NeverIn(steps, n, NoFill) ==> RunBook(b, steps, n).lastFill == b.lastFill
  {
    if n > 0 {
      NextFill(RunBook(b, steps, n - 1), steps[n - 1]);
      LastFillIsLatest(b, steps, n - 1, i);
      if LatestAt(steps, n, i, NoFill) && i < n - 1 {
        assert NoFill(steps[n - 1]) && LatestAt(steps, n - 1, i, NoFill);
      }
    }
  }

  /** The trade that stands for a fill, in print. */
  ghost predicate Prints(t: Trade, s: BookStep)
    requires Fills(s)
  {
    && t.side == s.op.side && t.price == FormatPricePieces(s.op.price) && t.size == FormatTokenAmount(s.op.amount)
    && t.timeMs == s.op.timeMs && t.blockNum == s.blockNum
  }

  /** The newest trade first, then the older ones in their order, at most fifty. */
  ghost predicate Prepended(trades: seq<Trade>, t: Trade, older: seq<Trade>) {
    && |trades| == (if |older| < 50 then |older| + 1 else 50)
    && trades[0] == t && forall k :: 1 <= k < |trades| ==> trades[k] == older[k - 1]
  }

  ghost predicate SameTrade(s: BookStep, t: BookStep) {
    Fills(s) && Fills(t) && s.blockNum == t.blockNum && s.op.price == t.op.price && s.op.amount == t.op.amount
  }

  lemma PushedFirst(trades: seq<Trade>, t: Trade)
    requires |trades| <= 50
    ensures Prepended(PushTrade(trades, t), t, trades)
  {
  }

  lemma FillMakes(b: Book, s: BookStep)
    requires Fills(s)
    ensures var after, sent, t := Next(b, s), OpMessage(b, s.op, s.blockNum), OpTrade(s.op, s.blockNum);
            if b.lastFill == Some(KeyOf(s)) then after.trades == b.trades && sent.trade == None
            else after.trades == PushTrade(b.trades, t) && sent.trade == Some(t)
  {
    FilledBook(b, s.op, s.blockNum);
  }

  /** A fill is listed and published first of all, unless it is the other side of the latest fill before it. */
  lemma TradeListed(b: Book, s: BookStep)
    requires Fills(s) && |b.trades| <= 50
    ensures var after, sent := Next(b, s), OpMessage(b, s.op, s.blockNum);
            if b.lastFill == Some(KeyOf(s)) then after.trades == b.trades && sent.trade.None?
            else sent.trade.Some? && Prints(sent.trade.value, s) && Prepended(after.trades, sent.trade.value, b.trades)
  {
    FillMakes(b, s);
    PushedFirst(b.trades, OpTrade(s.op, s.blockNum));
  }

  lemma {:induction false} AtMostFifty(b: Book, steps: seq<BookStep>, n: nat)
    requires n <= |steps| && |b.trades| <= 50
    ensures |RunBook(b, steps, n).trades| <= 50
  {
    if n > 0 {
      AtMostFifty(b, steps, n - 1);
      NextFill(RunBook(b, steps, n - 1), steps[n - 1]);
      if Fills(steps[n - 1]) {
        TradeListed(RunBook(b, steps, n - 1), steps[n - 1]);
      }
    }
  }

  /**
   Over any run from an empty book: a fill that differs from the latest one before it, in block, price or
   amount, is listed first; one that does not, and any other step, leaves the list alone.
   */
  lemma {:induction false} TradesAreFills(steps: seq<BookStep>, n: nat, i: nat)
    requires n < |steps|
    ensures var before, after := RunBook(EMPTY_BOOK, steps, n), RunBook(EMPTY_BOOK, steps, n + 1);
            && (!Fills(steps[n]) ==> after.trades == before.trades)
            && (Fills(steps[n]) && LatestAt(steps, n, i, NoFill) && SameTrade(steps[i], steps[n]) ==> after.trades == before.trades)
            && (Fills(steps[n]) && LatestAt(steps, n, i, NoFill) && !SameTrade(steps[i], steps[n]) ==>
                  Listed(after.trades, steps[n], before.trades))
            && (Fills(steps[n]) && NeverIn(steps, n, NoFill) ==> Listed(after.trades, steps[n], before.trades))
  {
    var before := RunBook(EMPTY_BOOK, steps, n);
    AtMostFifty(EMPTY_BOOK, steps, n);
    LastFillIsLatest(EMPTY_BOOK, steps, n, i);
    NextFill(before, steps[n]);
    if Fills(steps[n]) {
      TradeListed(before, steps[n]);
    }
  }

  ghost predicate Listed(trades: seq<Trade>, s: BookStep, older: seq<Trade>)
    requires Fills(s)
  {
    exists t :: Prints(t, s) && Prepended(trades, t, older)
  }
}
