/**
 A subscriber's copy of an order book: printed snapshots and numbered deltas (src/indexer/books.rs),
 delivered with losses, repetitions and in any order.
 */
module Replica {
  import opened Ints
  import opened WriteSets
  import opened Formatting
  import opened Books

  type Printed = map<string, string>

  // ---- The server's side ----

  /** A change of a level, published or applied in quiet mode, or a hydration from the chain. */
  datatype ServerStep = Change(op: BookOp, blockNum: u64, publish: bool) | Hydrate(chain: ChainBook, last: Option<u64>)

  function Moved(b: Book, s: ServerStep): Book {
    match s
    case Change(op, blockNum, _) => if EditOf(op).None? then b else OpBook(b, op, blockNum)
    case Hydrate(chain, last) => HydrateBook(b, chain, last)
  }

  function Sent(b: Book, s: ServerStep): Option<BookDelta> {
    match s
    case Change(op, blockNum, publish) =>
      if publish && EditOf(op).Some? then Some(OpMessage(b, op, blockNum)) else None
    case Hydrate(_, _) => None
  }

  function Server(b: Book, steps: seq<ServerStep>): Book {
    if steps == [] then b else Moved(Server(b, steps[..|steps| - 1]), steps[|steps| - 1])
  }

  // ---- Snapshots ----

  predicate Better(side: Side, p: u64, q: u64) {
    if side.Buy? then p > q else p < q
  }

  function TextOf(p: u64, size: u64): LevelText { LevelText(FormatPricePieces(p), FormatTokenAmount(size)) }

  lemma {:induction false} BestExists(side: Side, prices: set<u64>) returns (best: u64)
    requires prices != {}
    ensures best in prices && forall q :: q in prices ==> q == best || Better(side, best, q)
    decreases |prices|
  {
    var p :| p in prices;
    if prices - {p} == {} {
      best := p;
      assert forall q :: q in prices ==> q == p || q in prices - {p};
    } else {
      best := BestExists(side, prices - {p});
      assert forall q :: q in prices ==> q == p || q in prices - {p};
      if Better(side, p, best) {
        best := p;
      }
    }
  }

  /** `prices` lists the best levels first; what is left out is worse than all of them. */
  ghost predicate TopPrices(levels: Levels, side: Side, prices: seq<u64>) {
    && (forall i :: 0 <= i < |prices| ==> prices[i] in levels)
    && (forall i, j :: 0 <= i < j < |prices| ==> Better(side, prices[i], prices[j]))
    && (forall i, q :: 0 <= i < |prices| && q in levels && q !in prices ==> Better(side, prices[i], q))
  }

  /** The texts print the levels at the given prices. */
  ghost predicate Lists(levels: Levels, prices: seq<u64>, texts: seq<LevelText>) {
    && |texts| == |prices|
    && forall i :: 0 <= i < |prices| ==> IsText(levels, prices[i], texts[i])
  }

  predicate IsText(levels: Levels, p: u64, t: LevelText) {
    p in levels && t == TextOf(p, levels[p])
  }

  /** Bids from the highest price down, asks from the lowest up, at most `depth` of them. */
  method TopLevels(levels: Levels, side: Side, depth: nat) returns (texts: seq<LevelText>, ghost prices: seq<u64>)
    ensures TopPrices(levels, side, prices)
    ensures forall i, j :: 0 <= i < j < |prices| ==> if side.Buy? then prices[i] > prices[j] else prices[i] < prices[j]
    ensures |texts| == if depth < |levels| then depth else |levels|
    ensures depth >= |levels| ==> forall q :: q in levels ==> q in prices
    ensures Lists(levels, prices, texts)
  {
    texts, prices := [], [];
    var todo := levels.Keys;
    assert |levels| == |levels.Keys|;
    while todo != {} && |texts| < depth
      invariant todo <= levels.Keys && |prices| + |todo| == |levels|
      invariant |texts| == |prices| <= depth
      invariant forall q :: q in levels ==> (q in todo <==> q !in prices)
      invariant TopPrices(levels, side, prices)
      invariant Lists(levels, prices, texts)
    {
      ghost var best := BestExists(side, todo);
      var p :| p in todo && forall q :: q in todo ==> q == p || Better(side, p, q);
      TopNext(levels, side, prices, p);
      ListsNext(levels, prices, texts, p);
      texts := texts + [TextOf(p, levels[p])];
      prices := prices + [p];
      todo := todo - {p};
    }
  }

  lemma TopNext(levels: Levels, side: Side, prices: seq<u64>, p: u64)
    requires TopPrices(levels, side, prices) && p in levels && p !in prices
    requires forall q :: q in levels && q !in prices ==> q == p || Better(side, p, q)
    ensures TopPrices(levels, side, prices + [p])
  {
  }

  lemma ListsNext(levels: Levels, prices: seq<u64>, texts: seq<LevelText>, p: u64)
    requires Lists(levels, prices, texts) && p in levels
    ensures Lists(levels, prices + [p], texts + [TextOf(p, levels[p])])
  {
    assert IsText(levels, p, TextOf(p, levels[p]));
  }

  // ---- The subscriber's side ----

  /** A copy with the number of the last delta in it, or one that has seen a gap. */
  datatype Client = Live(sequence: u64, bids: Printed, asks: Printed) | Gap
  {
    function On(side: Side): Printed
      requires Live?
    {
      if side.Buy? then bids else asks
    }
  }

  function SetText(m: Printed, t: LevelText): Printed {
    if t.size == "0" then m - {t.price} else m[t.price := t.size]
  }

  function SetTexts(m: Printed, texts: seq<LevelText>): Printed {
    if texts == [] then m else SetText(SetTexts(m, texts[..|texts| - 1]), texts[|texts| - 1])
  }

  /** Old numbers are ignored, the next one is applied, a later one shows a gap. */
  function Receive(c: Client, d: BookDelta): Client {
    match c
    case Gap => Gap
    case Live(n, bids, asks) =>
      if d.sequence <= n then c
      else if d.sequence == n + 1 then Live(d.sequence, SetTexts(bids, d.bids), SetTexts(asks, d.asks))
      else Gap
  }

  function ReceiveAll(c: Client, messages: seq<BookDelta>): Client {
    if messages == [] then c else Receive(ReceiveAll(c, messages[..|messages| - 1]), messages[|messages| - 1])
  }

  // ---- Agreement ----

  /** The texts of the levels under the texts of their prices, no more and no fewer. */
  ghost predicate Prints<K(!new), V(!new)>(m: map<K, V>, levels: Levels, price: u64 -> K, size: u64 -> V) {
    && (forall p :: p in levels ==> Get(m, price(p)) == Some(size(levels[p])))
    && (forall k :: k in m ==> exists p :: p in levels && price(p) == k)
  }

  /** The printed levels are those of the book. */
  ghost predicate Agrees(m: Printed, levels: Levels) {
    Prints(m, levels, FormatPricePieces, FormatTokenAmount)
  }

  /** Every other level that prints at this price keeps the size the text is set to. */
  ghost predicate Follows<K(!new)>(levels: Levels, price: u64 -> K, p: u64, size: u64) {
    forall q :: q in levels && q != p && price(q) == price(p) ==> size > 0 && levels[q] == size
  }

  /** Levels that share a text share their size. */
  ghost predicate NoClash<K(!new)>(levels: Levels, price: u64 -> K) {
    forall p, q :: p in levels && q in levels && price(p) == price(q) ==> levels[p] == levels[q]
  }

  /** Levels whose texts can all be told, one by one. */
  ghost predicate Tellable(levels: Levels) {
    NoClash(levels, FormatPricePieces)
  }

  ghost predicate Copies(c: Client, b: Book) {
    c.Live? && c.sequence == b.sequence && Agrees(c.bids, b.bids) && Agrees(c.asks, b.asks)
  }

  function Listed(levels: Levels, prices: seq<u64>): Levels {
    map p | p in levels && p in prices :: levels[p]
  }

  lemma ListedNext(levels: Levels, prices: seq<u64>, p: u64)
    requires p in levels && levels[p] > 0
    ensures Listed(levels, prices + [p]) == SetAmount(Listed(levels, prices), p, levels[p])
  {
  }

  ghost predicate NoneEmpty(levels: Levels) {
    forall p :: p in levels ==> levels[p] > 0
  }

  lemma ListsPrefix(levels: Levels, prices: seq<u64>, texts: seq<LevelText>, n: nat)
    requires Lists(levels, prices, texts) && n < |texts|
    ensures Lists(levels, prices[..n], texts[..n])
    ensures prices[n] in levels && texts[n] == TextOf(prices[n], levels[prices[n]])
  {
    assert IsText(levels, prices[n], texts[n]);
  }

  lemma ListedLast(levels: Levels, prices: seq<u64>, n: nat)
    requires |prices| == n + 1 && prices[n] in levels && levels[prices[n]] > 0
    ensures Listed(levels, prices) == SetAmount(Listed(levels, prices[..n]), prices[n], levels[prices[n]])
  {
    assert prices == prices[..n] + [prices[n]];
    ListedNext(levels, prices[..n], prices[n]);
  }

  lemma TextsAgreeStep(levels: Levels, known: Levels, m: Printed, p: u64)
    requires NoneEmpty(levels) && Tellable(levels) && p in levels && Agrees(m, known)
    requires forall q :: q in known ==> q in levels && known[q] == levels[q]
    ensures Agrees(SetText(m, TextOf(p, levels[p])), SetAmount(known, p, levels[p]))
  {
    SetAgreesIff(m, known, p, levels[p]);
  }

  lemma {:induction false} TextsAgree(levels: Levels, prices: seq<u64>, texts: seq<LevelText>)
    requires NoneEmpty(levels) && Tellable(levels) && Lists(levels, prices, texts)
    ensures Agrees(SetTexts(map[], texts), Listed(levels, prices))
    decreases |texts|
  {
    if texts != [] {
      var n := |texts| - 1;
      ListsPrefix(levels, prices, texts, n);
      TextsAgree(levels, prices[..n], texts[..n]);
      TextsAgreeStep(levels, Listed(levels, prices[..n]), SetTexts(map[], texts[..n]), prices[n]);
      ListedLast(levels, prices, n);
    }
  }

  lemma AgreeingNeverClash(m: Printed, levels: Levels)
    requires Agrees(m, levels)
    ensures Tellable(levels)
  {
    forall p, q | p in levels && q in levels && FormatPricePieces(p) == FormatPricePieces(q)
      ensures levels[p] == levels[q]
    {
      assert Get(m, FormatPricePieces(p)) == Some(FormatTokenAmount(levels[p]));
      TokenAmountInjective(levels[p], levels[q]);
    }
  }

  lemma {:induction false} AllListedIff(levels: Levels, prices: seq<u64>, texts: seq<LevelText>)
    requires NoneEmpty(levels) && Lists(levels, prices, texts) && forall p :: p in levels ==> p in prices
    ensures Agrees(SetTexts(map[], texts), levels) <==> Tellable(levels)
  {
    if Tellable(levels) {
      TextsAgree(levels, prices, texts);
      assert Listed(levels, prices) == levels;
    } else if Agrees(SetTexts(map[], texts), levels) {
      AgreeingNeverClash(SetTexts(map[], texts), levels);
    }
  }

  /** A snapshot of full depth is a copy of the book, if and only if levels of one text have one size. */
  lemma {:induction false} SnapshotCopiesIff(b: Book, bids: seq<LevelText>, asks: seq<LevelText>, bidPrices: seq<u64>, askPrices: seq<u64>)
    requires b.NoEmptyLevel()
    requires Lists(b.bids, bidPrices, bids) && forall p :: p in b.bids ==> p in bidPrices
    requires Lists(b.asks, askPrices, asks) && forall p :: p in b.asks ==> p in askPrices
    ensures Copies(Live(b.sequence, SetTexts(map[], bids), SetTexts(map[], asks)), b) <==> Tellable(b.bids) && Tellable(b.asks)
  {
    SideNotEmpty(b, Buy);
    SideNotEmpty(b, Sell);
    AllListedIff(b.bids, bidPrices, bids);
    AllListedIff(b.asks, askPrices, asks);
  }

  lemma SideNotEmpty(b: Book, side: Side)
    requires b.NoEmptyLevel()
    ensures NoneEmpty(b.On(side))
  {
  }

  /** Printable prices never clash. */
  lemma PrintableFollows(levels: Levels, p: u64, size: u64)
    requires forall q :: q in levels ==> q <= PRINTABLE_PRICE
    ensures Tellable(levels) && Follows(levels, FormatPricePieces, p, size)
  {
    forall q, r | q in levels && (r in levels || r == p) && FormatPricePieces(q) == FormatPricePieces(r)
      ensures q == r
    {
      PricePrintsAlike(q, r);
    }
  }

  // ---- One delta ----

  /** Setting the text of a price to its new size follows the level, if and only if no level of that text differs. */
  lemma SetAgreesIff(m: Printed, levels: Levels, p: u64, size: u64)
    requires Agrees(m, levels)
    ensures Agrees(SetText(m, TextOf(p, size)), SetAmount(levels, p, size)) <==> Follows(levels, FormatPricePieces, p, size)
  {
    PositiveNotZero(size);
    if size == 0 {
      PrintsRemoveIff(m, levels, FormatPricePieces, FormatTokenAmount, p);
    } else {
      forall a: u64, b: u64
        ensures FormatTokenAmount(a) == FormatTokenAmount(b) ==> a == b
      {
        TokenAmountInjective(a, b);
      }
      PrintsAddIff(m, levels, FormatPricePieces, FormatTokenAmount, p, size);
    }
  }

  lemma PrintsAddIff<K(!new), V(!new)>(m: map<K, V>, levels: Levels, price: u64 -> K, size: u64 -> V, p: u64, raw: u64)
    requires Prints(m, levels, price, size) && raw > 0
    requires forall a: u64, b: u64 :: size(a) == size(b) ==> a == b
    ensures Prints(m[price(p) := size(raw)], levels[p := raw], price, size) <==> Follows(levels, price, p, raw)
  {
    var printed, added := m[price(p) := size(raw)], levels[p := raw];
    if Follows(levels, price, p, raw) {
      PrintsAdd(m, levels, price, size, p, raw);
    } else {
      var q :| q in levels && q != p && price(q) == price(p) && levels[q] != raw;
      assert q in added && size(added[q]) != size(raw);
      assert Get(printed, price(q)) == Some(size(raw));
    }
  }

  lemma PrintsAdd<K(!new), V(!new)>(m: map<K, V>, levels: Levels, price: u64 -> K, size: u64 -> V, p: u64, raw: u64)
    requires Prints(m, levels, price, size) && Follows(levels, price, p, raw)
    ensures Prints(m[price(p) := size(raw)], levels[p := raw], price, size)
  {
    var printed, added := m[price(p) := size(raw)], levels[p := raw];
    forall q | q in added
      ensures Get(printed, price(q)) == Some(size(added[q]))
    {
      assert q != p ==> Get(m, price(q)) == Some(size(levels[q]));
    }
    forall k | k in printed
      ensures exists q :: q in added && price(q) == k
    {
      if k == price(p) {
        assert p in added;
      } else {
        var q :| q in levels && price(q) == k;
        assert q in added;
      }
    }
  }

  lemma PrintsRemoveIff<K(!new), V(!new)>(m: map<K, V>, levels: Levels, price: u64 -> K, size: u64 -> V, p: u64)
    requires Prints(m, levels, price, size)
    ensures Prints(m - {price(p)}, levels - {p}, price, size) <==> Follows(levels, price, p, 0)
  {
    if Follows(levels, price, p, 0) {
      PrintsRemove(m, levels, price, size, p);
    } else {
      var q :| q in levels && q != p && price(q) == price(p);
      assert q in levels - {p} && price(q) !in m - {price(p)};
    }
  }

  lemma PrintsRemove<K(!new), V(!new)>(m: map<K, V>, levels: Levels, price: u64 -> K, size: u64 -> V, p: u64)
    requires Prints(m, levels, price, size) && Follows(levels, price, p, 0)
    ensures Prints(m - {price(p)}, levels - {p}, price, size)
  {
    var printed, less := m - {price(p)}, levels - {p};
    forall q | q in less
      ensures Get(printed, price(q)) == Some(size(less[q]))
    {
      assert Get(m, price(q)) == Some(size(levels[q]));
    }
    forall k | k in printed
      ensures exists q :: q in less && price(q) == k
    {
      var q :| q in levels && price(q) == k;
      assert q in less;
    }
  }

  /** A message carries its book's number and the new size of the one level changed. */
  lemma MessageIs(b: Book, op: BookOp, blockNum: u64)
    requires EditOf(op).Some?
    ensures var d, after := OpMessage(b, op, blockNum), OpBook(b, op, blockNum);
            && d.sequence == after.sequence == SatAdd(b.sequence, 1)
            && after.On(op.side) == SetAmount(b.On(op.side), op.price, after.Size(op.side, op.price))
            && (op.side.Buy? ==> d.bids == [TextOf(op.price, after.Size(op.side, op.price))] && d.asks == [] && after.asks == b.asks)
            && (op.side.Sell? ==> d.asks == [TextOf(op.price, after.Size(op.side, op.price))] && d.bids == [] && after.bids == b.bids)
  {
    OpLevels(b, op, blockNum, Buy);
    OpLevels(b, op, blockNum, Sell);
  }

  lemma {:induction false} OneText(m: Printed, text: LevelText)
    ensures SetTexts(m, [text]) == SetText(m, text)
    ensures SetTexts(m, []) == m
  {
    assert [text][..0] == [];
  }

  /** The delta of a change leaves no other level of its text behind. */
  ghost predicate OpFollows(b: Book, op: BookOp, blockNum: u64)
    requires EditOf(op).Some?
  {
    Follows(b.On(op.side), FormatPricePieces, op.price, OpBook(b, op, blockNum).Size(op.side, op.price))
  }

  lemma SideFollowsIff(c: Client, b: Book, op: BookOp, blockNum: u64)
    requires Copies(c, b) && EditOf(op).Some?
    ensures var after := OpBook(b, op, blockNum);
            Agrees(SetText(c.On(op.side), TextOf(op.price, after.Size(op.side, op.price))), after.On(op.side))
            <==> OpFollows(b, op, blockNum)
  {
    MessageIs(b, op, blockNum);
    SetAgreesIff(c.On(op.side), b.On(op.side), op.price, OpBook(b, op, blockNum).Size(op.side, op.price));
  }

  /** Applying the delta of a change to a copy gives a copy of the changed book, if and only if the delta follows. */
  lemma DeltaFollowsIff(c: Client, b: Book, op: BookOp, blockNum: u64)
    requires Copies(c, b) && b.sequence < U64_MAX && EditOf(op).Some?
    ensures Receive(c, OpMessage(b, op, blockNum)).Live?
    ensures Receive(c, OpMessage(b, op, blockNum)).sequence == OpBook(b, op, blockNum).sequence
    ensures Copies(Receive(c, OpMessage(b, op, blockNum)), OpBook(b, op, blockNum)) <==> OpFollows(b, op, blockNum)
  {
    SideFollowsIff(c, b, op, blockNum);
    MessageIs(b, op, blockNum);
    var d, after := OpMessage(b, op, blockNum), OpBook(b, op, blockNum);
    var text := TextOf(op.price, after.Size(op.side, op.price));
    OneText(c.bids, text);
    OneText(c.asks, text);
    assert d.sequence == c.sequence + 1;
  }

  /** Past the printable prices two levels share one text, and no printed copy can follow both sizes. */
  lemma UnprintableBreaks(m: Printed, b: Book, op: BookOp, blockNum: u64, q: u64)
    requires op.BookCreated? && EditOf(op).Some? && op.price !in b.On(op.side) && op.price > PRINTABLE_PRICE
    requires q in b.On(op.side) && q > PRINTABLE_PRICE && b.On(op.side)[q] != op.amount
    ensures !Agrees(m, OpBook(b, op, blockNum).On(op.side))
  {
    var after := OpBook(b, op, blockNum).On(op.side);
    OpLevels(b, op, blockNum, op.side);
    assert after[op.price] == op.amount && after[q] == b.On(op.side)[q];
    PricePrintsAlike(op.price, q);
    TokenAmountInjective(after[op.price], after[q]);
    assert op.price in after && q in after;
  }

  // ---- Numbers tell states apart ----

  predicate TakesNumber(s: ServerStep) { s.Change? ==> EditOf(s.op).Some? }

  /** Every step that touches the book takes one number. */
  lemma StepNumber(b: Book, s: ServerStep)
    requires b.sequence < U64_MAX
    ensures Moved(b, s).sequence == b.sequence + (if TakesNumber(s) then 1 else 0)
    ensures !TakesNumber(s) ==> Moved(b, s) == b && Sent(b, s).None?
  {
    if s.Change? && EditOf(s.op).Some? {
      MessageIs(b, s.op, s.blockNum);
    }
  }

  /** The book after the first k steps. */
  function BookAfter(b: Book, steps: seq<ServerStep>, k: nat): Book
    requires k <= |steps|
  {
    Server(b, steps[..k])
  }

  ghost predicate BelowMax(b: Book, steps: seq<ServerStep>) {
    forall k :: 0 <= k <= |steps| ==> BookAfter(b, steps, k).sequence < U64_MAX
  }

  lemma ServerAt(b: Book, steps: seq<ServerStep>, k: nat)
    requires k < |steps|
    ensures BookAfter(b, steps, k + 1) == Moved(BookAfter(b, steps, k), steps[k])
  {
    assert steps[..k + 1][..k] == steps[..k];
  }

  /** Numbers never decrease, and states of one number are the same book, with no step taken between. */
  lemma {:induction false} SameNumber(b: Book, steps: seq<ServerStep>, i: nat, j: nat)
    requires i <= j <= |steps| && BelowMax(b, steps)
    ensures BookAfter(b, steps, i).sequence <= BookAfter(b, steps, j).sequence
    ensures BookAfter(b, steps, i).sequence == BookAfter(b, steps, j).sequence ==>
              BookAfter(b, steps, i) == BookAfter(b, steps, j) && forall k :: i <= k < j ==> !TakesNumber(steps[k])
    decreases j - i
  {
    if i < j {
      var was := BookAfter(b, steps, j - 1);
      SameNumber(b, steps, i, j - 1);
      ServerAt(b, steps, j - 1);
      StepNumber(was, steps[j - 1]);
    }
  }

  // ---- Over every delivery ----

  /** The message of step k was `d`. */
  predicate SentAt(b: Book, steps: seq<ServerStep>, k: nat, d: BookDelta) {
    k < |steps| && Sent(BookAfter(b, steps, k), steps[k]) == Some(d)
  }

  ghost predicate WasSent(b: Book, steps: seq<ServerStep>, d: BookDelta) {
    exists k :: 0 <= k < |steps| && SentAt(b, steps, k, d)
  }

  ghost predicate AllSent(b: Book, steps: seq<ServerStep>, messages: seq<BookDelta>) {
    forall d :: d in messages ==> WasSent(b, steps, d)
  }

  /** Step k changed the book and told nobody. */
  predicate SilentAt(b: Book, steps: seq<ServerStep>, k: nat)
    requires k < |steps|
  {
    TakesNumber(steps[k]) && Sent(BookAfter(b, steps, k), steps[k]).None?
  }

  ghost predicate NoSilence(b: Book, steps: seq<ServerStep>, k: nat)
    requires k <= |steps|
  {
    forall i :: 0 <= i < k ==> !SilentAt(b, steps, i)
  }

  ghost predicate StepFollows(b: Book, steps: seq<ServerStep>, k: nat)
    requires k < |steps|
  {
    Sent(BookAfter(b, steps, k), steps[k]).Some? ==> OpFollows(BookAfter(b, steps, k), steps[k].op, steps[k].blockNum)
  }

  /** Every delta follows that is published before the first silent step. */
  ghost predicate AllFollow(b: Book, steps: seq<ServerStep>) {
    forall k :: 0 <= k < |steps| && NoSilence(b, steps, k) ==> StepFollows(b, steps, k)
  }

  ghost predicate CopiesAt(c: Client, b: Book, steps: seq<ServerStep>, k: nat) {
    k <= |steps| && Copies(c, BookAfter(b, steps, k))
  }

  /** The subscriber has seen a gap, or has the levels the server had at the number it holds. */
  ghost predicate Correct(c: Client, b: Book, steps: seq<ServerStep>) {
    c.Live? ==> exists k: nat :: CopiesAt(c, b, steps, k)
  }

  lemma NoSilenceUpTo(b: Book, steps: seq<ServerStep>, i: nat, k: nat)
    requires i <= |steps| && k < |steps| && NoSilence(b, steps, i) && BelowMax(b, steps)
    requires BookAfter(b, steps, i).sequence == BookAfter(b, steps, k).sequence
    ensures NoSilence(b, steps, k) && BookAfter(b, steps, i) == BookAfter(b, steps, k)
  {
    if i <= k {
      SameNumber(b, steps, i, k);
    } else {
      SameNumber(b, steps, k, i);
    }
  }

  /** The number of a message is the one after its book. */
  lemma MessageNumber(b: Book, steps: seq<ServerStep>, k: nat, d: BookDelta)
    requires SentAt(b, steps, k, d) && BelowMax(b, steps)
    ensures d.sequence == BookAfter(b, steps, k).sequence + 1 == BookAfter(b, steps, k + 1).sequence
    ensures !SilentAt(b, steps, k) && TakesNumber(steps[k])
  {
    MessageIs(BookAfter(b, steps, k), steps[k].op, steps[k].blockNum);
    ServerAt(b, steps, k);
    StepNumber(BookAfter(b, steps, k), steps[k]);
  }

  /** A message that carries the next number was sent by the step that comes next in the book copied. */
  lemma NextMessage(c: Client, b: Book, steps: seq<ServerStep>, i: nat, d: BookDelta) returns (k: nat)
    requires CopiesAt(c, b, steps, i) && NoSilence(b, steps, i) && WasSent(b, steps, d) && BelowMax(b, steps)
    requires d.sequence == c.sequence + 1
    ensures k < |steps| && SentAt(b, steps, k, d) && CopiesAt(c, b, steps, k) && NoSilence(b, steps, k + 1)
  {
    k :| 0 <= k < |steps| && SentAt(b, steps, k, d);
    MessageNumber(b, steps, k, d);
    NoSilenceUpTo(b, steps, i, k);
  }

  lemma FollowOne(c: Client, b: Book, steps: seq<ServerStep>, k: nat, d: BookDelta)
    requires k < |steps| && SentAt(b, steps, k, d) && CopiesAt(c, b, steps, k) && BelowMax(b, steps)
    requires StepFollows(b, steps, k)
    ensures CopiesAt(Receive(c, d), b, steps, k + 1)
  {
    ServerAt(b, steps, k);
    DeltaFollowsIff(c, BookAfter(b, steps, k), steps[k].op, steps[k].blockNum);
  }

  lemma ReceiveOne(c: Client, b: Book, steps: seq<ServerStep>, i: nat, d: BookDelta) returns (j: nat)
    requires CopiesAt(c, b, steps, i) && NoSilence(b, steps, i) && WasSent(b, steps, d)
    requires BelowMax(b, steps) && AllFollow(b, steps)
    ensures Receive(c, d).Live? ==> CopiesAt(Receive(c, d), b, steps, j) && NoSilence(b, steps, j)
  {
    j := i;
    if d.sequence == c.sequence + 1 {
      var k := NextMessage(c, b, steps, i, d);
      assert NoSilence(b, steps, k);
      FollowOne(c, b, steps, k, d);
      j := k + 1;
    }
  }

  lemma {:induction false} Delivered(c: Client, b: Book, steps: seq<ServerStep>, messages: seq<BookDelta>) returns (k: nat)
    requires Copies(c, b) && BelowMax(b, steps) && AllFollow(b, steps) && AllSent(b, steps, messages)
    ensures ReceiveAll(c, messages).Live? ==> CopiesAt(ReceiveAll(c, messages), b, steps, k) && NoSilence(b, steps, k)
  {
    if messages == [] {
      k := 0;
      assert steps[..0] == [];
    } else {
      var rest, d := messages[..|messages| - 1], messages[|messages| - 1];
      assert d in messages;
      k := Delivered(c, b, steps, rest);
      if ReceiveAll(c, rest).Live? {
        k := ReceiveOne(ReceiveAll(c, rest), b, steps, k, d);
      }
    }
  }

  /** Before the first delta that does not follow, in-order delivery keeps a copy. */
  lemma {:induction false} InOrder(c: Client, b: Book, steps: seq<ServerStep>, k: nat) returns (messages: seq<BookDelta>)
    requires Copies(c, b) && BelowMax(b, steps) && k <= |steps| && NoSilence(b, steps, k)
    requires forall i :: 0 <= i < k ==> StepFollows(b, steps, i)
    ensures AllSent(b, steps, messages) && Copies(ReceiveAll(c, messages), BookAfter(b, steps, k))
  {
    if k == 0 {
      messages := [];
      assert steps[..0] == [];
    } else {
      messages := InOrder(c, b, steps, k - 1);
      var was, s := BookAfter(b, steps, k - 1), steps[k - 1];
      ServerAt(b, steps, k - 1);
      StepNumber(was, s);
      assert !SilentAt(b, steps, k - 1) && StepFollows(b, steps, k - 1);
      if TakesNumber(s) {
        messages := OneMore(c, b, steps, k - 1, messages);
        DeltaFollowsIff(ReceiveAll(c, messages[..|messages| - 1]), was, s.op, s.blockNum);
      }
    }
  }

  lemma OneMore(c: Client, b: Book, steps: seq<ServerStep>, k: nat, messages: seq<BookDelta>) returns (more: seq<BookDelta>)
    requires k < |steps| && AllSent(b, steps, messages) && Sent(BookAfter(b, steps, k), steps[k]).Some?
    ensures more != [] && more[..|more| - 1] == messages && AllSent(b, steps, more)
    ensures ReceiveAll(c, more) == Receive(ReceiveAll(c, messages), OpMessage(BookAfter(b, steps, k), steps[k].op, steps[k].blockNum))
  {
    var d := Sent(BookAfter(b, steps, k), steps[k]).value;
    more := messages + [d];
    assert SentAt(b, steps, k, d);
    assert more[..|more| - 1] == messages;
  }

  /** A delta that does not follow leaves a subscriber live and wrong. */
  lemma FirstFailure(c: Client, b: Book, steps: seq<ServerStep>, k: nat) returns (messages: seq<BookDelta>)
    requires Copies(c, b) && BelowMax(b, steps) && k < |steps| && NoSilence(b, steps, k) && !StepFollows(b, steps, k)
    requires forall i :: 0 <= i < k ==> StepFollows(b, steps, i)
    ensures AllSent(b, steps, messages) && !Correct(ReceiveAll(c, messages), b, steps)
  {
    var before := InOrder(c, b, steps, k);
    var was, s := BookAfter(b, steps, k), steps[k];
    messages := OneMore(c, b, steps, k, before);
    DeltaFollowsIff(ReceiveAll(c, before), was, s.op, s.blockNum);
    ServerAt(b, steps, k);
    WrongEverywhere(ReceiveAll(c, messages), b, steps, k + 1);
  }

  lemma WrongEverywhere(c: Client, b: Book, steps: seq<ServerStep>, k: nat)
    requires c.Live? && BelowMax(b, steps) && k <= |steps|
    requires c.sequence == BookAfter(b, steps, k).sequence && !Copies(c, BookAfter(b, steps, k))
    ensures !Correct(c, b, steps)
  {
    forall j: nat | j <= |steps|
      ensures !CopiesAt(c, b, steps, j)
    {
      if c.sequence == BookAfter(b, steps, j).sequence {
        if j <= k {
          SameNumber(b, steps, j, k);
        } else {
          SameNumber(b, steps, k, j);
        }
      }
    }
  }

  lemma {:induction false} FailureBefore(b: Book, steps: seq<ServerStep>, k: nat) returns (first: nat)
    requires k < |steps| && NoSilence(b, steps, k) && !StepFollows(b, steps, k)
    ensures first <= k && NoSilence(b, steps, first) && !StepFollows(b, steps, first)
    ensures forall i :: 0 <= i < first ==> StepFollows(b, steps, i)
  {
    if i :| 0 <= i < k && !StepFollows(b, steps, i) {
      first := FailureBefore(b, steps, i);
    } else {
      first := k;
    }
  }

  /**
   Whatever part of the published deltas arrives, in whatever order and however often, a subscriber that
   started from a copy has seen a gap or has exactly the levels the server had at the number it holds: for
   every delivery, if and only if every delta published before the first silent step follows.
   */
  lemma {:induction false} ReplicaCorrectIff(c: Client, b: Book, steps: seq<ServerStep>)
    requires Copies(c, b) && BelowMax(b, steps)
    ensures (forall messages :: AllSent(b, steps, messages) ==> Correct(ReceiveAll(c, messages), b, steps))
            <==> AllFollow(b, steps)
  {
    if AllFollow(b, steps) {
      forall messages | AllSent(b, steps, messages)
        ensures Correct(ReceiveAll(c, messages), b, steps)
      {
        var k := Delivered(c, b, steps, messages);
      }
    } else {
      var k :| 0 <= k < |steps| && NoSilence(b, steps, k) && !StepFollows(b, steps, k);
      var first := FailureBefore(b, steps, k);
      var messages := FirstFailure(c, b, steps, first);
    }
  }

  /** A hydration or a quiet change takes a number that no message carries. */
  lemma SilentNumber(b: Book, steps: seq<ServerStep>, k: nat, d: BookDelta)
    requires k < |steps| && BelowMax(b, steps) && WasSent(b, steps, d) && SilentAt(b, steps, k)
    ensures d.sequence != BookAfter(b, steps, k + 1).sequence == BookAfter(b, steps, k).sequence + 1
  {
    var j :| 0 <= j < |steps| && SentAt(b, steps, j, d);
    MessageNumber(b, steps, j, d);
    ServerAt(b, steps, k);
    StepNumber(BookAfter(b, steps, k), steps[k]);
    if j < k {
      SameNumber(b, steps, j + 1, k);
    } else if k < j {
      SameNumber(b, steps, k + 1, j);
    }
  }

  /** So a subscriber behind it never passes it unnoticed: it stays behind, or sees the gap. */
  lemma {:induction false} SilentStepIsSeen(c: Client, b: Book, steps: seq<ServerStep>, k: nat, messages: seq<BookDelta>)
    requires k < |steps| && BelowMax(b, steps) && SilentAt(b, steps, k)
    requires c.Live? && c.sequence < BookAfter(b, steps, k + 1).sequence && AllSent(b, steps, messages)
    ensures ReceiveAll(c, messages).Gap? || ReceiveAll(c, messages).sequence < BookAfter(b, steps, k + 1).sequence
  {
    if messages != [] {
      var rest, d := messages[..|messages| - 1], messages[|messages| - 1];
      assert d in messages;
      SilentStepIsSeen(c, b, steps, k, rest);
      SilentNumber(b, steps, k, d);
    }
  }
}
