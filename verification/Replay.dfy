/**
 Replaying blocks on a restored index (src/indexer/mod.rs): memories that agree on all that the store
 keeps stay in agreement whatever blocks are applied to both.
 */
module Replay {
  import opened Ints
  import opened WriteSets
  import opened Books
  import opened OrderIndex
  import opened Processor
  import Mirror
  import Parallel
  import opened Grouping

  /** A block of the chain with its order events. */
  datatype LiveBlock = LiveBlock(head: Head, events: seq<BlockEvent>)

  /** Memory after blocks `from` to n - 1 of the chain, one by one. */
  function RunRange(m: Mem, chain: seq<LiveBlock>, from: nat, n: nat): Mem
    requires from <= n <= |chain|
    decreases n
  {
    if n == from then m
    else RunBlock(RunRange(m, chain, from, n - 1), chain[n - 1].head.blockNum, chain[n - 1].events)
  }

  function RunChain(m: Mem, chain: seq<LiveBlock>): Mem {
    RunRange(m, chain, 0, |chain|)
  }

  lemma {:induction false} RangeJoin(m: Mem, chain: seq<LiveBlock>, a: nat, b: nat, n: nat)
    requires a <= b <= n <= |chain|
    ensures RunRange(RunRange(m, chain, a, b), chain, b, n) == RunRange(m, chain, a, n)
    decreases n
  {
    if b < n {
      RangeJoin(m, chain, a, b, n - 1);
    }
  }

  /** A range tells only of its own blocks, wherever they stand. */
  lemma {:induction false} SameRange(m: Mem, chain: seq<LiveBlock>, k: nat, other: seq<LiveBlock>, n: nat)
    requires k + n <= |chain| && n <= |other| && forall i :: 0 <= i < n ==> other[i] == chain[k + i]
    ensures RunRange(m, chain, k, k + n) == RunRange(m, other, 0, n)
  {
    if n > 0 {
      SameRange(m, chain, k, other, n - 1);
      assert other[n - 1] == chain[k + (n - 1)] && k + (n - 1) == k + n - 1;
    }
  }

  // ---- The blocks after the head ----

  predicate Below(head: Option<Head>, b: LiveBlock) {
    head.None? || head.value.blockNum < b.head.blockNum
  }

  /** `load_blocks_after`, while n blocks are stored. */
  function BlocksAfter(chain: seq<LiveBlock>, n: nat, head: Option<Head>): seq<LiveBlock>
    requires n <= |chain|
  {
    if n == 0 then []
    else
      var rest, b := BlocksAfter(chain, n - 1, head), chain[n - 1];
      if Below(head, b) then rest + [b] else rest
  }

  /** The head after the first k blocks; `origin` is that of the tables before any of them. */
  function HeadAt(origin: Option<Head>, chain: seq<LiveBlock>, k: nat): Option<Head>
    requires k <= |chain|
  {
    if k == 0 then origin else Some(chain[k - 1].head)
  }

  ghost predicate Ascending(origin: Option<Head>, chain: seq<LiveBlock>) {
    && (forall i :: 0 <= i < |chain| ==> Below(origin, chain[i]))
    && (forall i, j :: 0 <= i < j < |chain| ==> Below(Some(chain[i].head), chain[j]))
  }

  lemma HeadBelowIff(origin: Option<Head>, chain: seq<LiveBlock>, k: nat, n: nat)
    requires Ascending(origin, chain) && k <= |chain| && n < |chain|
    ensures Below(HeadAt(origin, chain, k), chain[n]) <==> k <= n
  {
    if k > 0 {
      assert k - 1 < n ==> Below(Some(chain[k - 1].head), chain[n]);
      assert n < k - 1 ==> Below(Some(chain[n].head), chain[k - 1]);
    }
  }

  /** Blocks k to n - 1, none when there are none. */
  function Between(chain: seq<LiveBlock>, k: nat, n: nat): seq<LiveBlock>
    requires n <= |chain|
  {
    if n <= k then [] else Between(chain, k, n - 1) + [chain[n - 1]]
  }

  lemma {:induction false} BetweenLength(chain: seq<LiveBlock>, k: nat, n: nat)
    requires k <= n <= |chain|
    ensures |Between(chain, k, n)| == n - k
    decreases n
  {
    if k < n {
      BetweenLength(chain, k, n - 1);
    }
  }

  lemma {:induction false} BetweenAt(chain: seq<LiveBlock>, k: nat, n: nat, i: nat)
    requires k + i < n <= |chain|
    ensures i < |Between(chain, k, n)| && Between(chain, k, n)[i] == chain[k + i]
    decreases n
  {
    BetweenLength(chain, k, n);
    BetweenLength(chain, k, n - 1);
    if k + i < n - 1 {
      BetweenAt(chain, k, n - 1, i);
    }
  }

  lemma {:induction false} BetweenOne(chain: seq<LiveBlock>, k: nat)
    requires k < |chain|
    ensures Between(chain, k, k + 1) == [chain[k]]
  {
    assert Between(chain, k, k) == [];
  }

  lemma {:induction false} RunBetween(m: Mem, chain: seq<LiveBlock>, k: nat, n: nat)
    requires k <= n <= |chain|
    ensures RunChain(m, Between(chain, k, n)) == RunRange(m, chain, k, n)
  {
    var some := Between(chain, k, n);
    BetweenLength(chain, k, n);
    forall i | 0 <= i < n - k
      ensures some[i] == chain[k + i]
    {
      BetweenAt(chain, k, n, i);
    }
    SameRange(m, chain, k, some, n - k);
  }

  /** The blocks after the head of the first k blocks are the others. */
  lemma {:induction false} AfterHead(origin: Option<Head>, chain: seq<LiveBlock>, k: nat, n: nat)
    requires Ascending(origin, chain) && k <= |chain| && n <= |chain|
    ensures BlocksAfter(chain, n, HeadAt(origin, chain, k)) == Between(chain, k, n)
  {
    if n > 0 {
      AfterHead(origin, chain, k, n - 1);
      HeadBelowIff(origin, chain, k, n - 1);
    }
  }

  // ---- Agreement ----

  /** A book without the last fill and the recent trades, which the store does not keep. */
  function Bare(b: Book): Book {
    b.(lastFill := None, trades := [])
  }

  function OrdersOf(o: Orders, user: string): set<OrderUuid> {
    Get(o.byUser, user).GetOr({})
  }

  /** All that later events read or change, but for recent trades and users listed with no order. */
  ghost predicate Alike(m: Mem, n: Mem) {
    && m.books.Keys == n.books.Keys
    && (forall spot :: Bare(BookAt(m.books, spot)) == Bare(BookAt(n.books, spot)))
    && m.last == n.last && m.vaultOf == n.vaultOf
    && AlikeOrders(m.orders, n.orders)
    && (forall vault, spot :: HoldingAt(m.holdings, vault, spot) == HoldingAt(n.holdings, vault, spot))
  }

  ghost predicate AlikeOrders(o: Orders, p: Orders) {
    o.orders == p.orders && o.byId == p.byId && forall user :: OrdersOf(o, user) == OrdersOf(p, user)
  }

  lemma BareOp(a: Book, b: Book, op: BookOp, blockNum: u64)
    requires Bare(a) == Bare(b) && EditOf(op).Some?
    ensures Bare(OpBook(a, op, blockNum)) == Bare(OpBook(b, op, blockNum))
  {
    var edit := EditOf(op).value;
    var last := if op.BookFilled? then Some(op.lastPrice) else None;
    assert a.On(op.side) == b.On(op.side);
    assert Bare(ChangeLevel(a, op.side, op.price, edit.amount, edit.isAdd, last))
        == Bare(ChangeLevel(b, op.side, op.price, edit.amount, edit.isAdd, last));
  }

  lemma BareHydration(a: Book, b: Book, h: Hydration)
    requires Bare(a) == Bare(b)
    ensures Bare(HydrateBook(a, h.book, h.last)) == Bare(HydrateBook(b, h.book, h.last))
  {
  }

  lemma BookSetAlike(m: Mem, n: Mem, spot: Spot, a: Book, b: Book)
    requires Alike(m, n) && Bare(a) == Bare(b)
    ensures Alike(m.(books := m.books[spot := a]), n.(books := n.books[spot := b]))
  {
    var after, other := m.books[spot := a], n.books[spot := b];
    forall at
      ensures Bare(BookAt(after, at)) == Bare(BookAt(other, at))
    {
      assert Bare(BookAt(m.books, at)) == Bare(BookAt(n.books, at));
    }
  }

  lemma ListingAlike(o: Orders, p: Orders, user: string, id: OrderUuid, at: string)
    requires OrdersOf(o, at) == OrdersOf(p, at) && OrdersOf(o, user) == OrdersOf(p, user)
    ensures Get(WithUser(o.byUser, user, id), at).GetOr({}) == Get(WithUser(p.byUser, user, id), at).GetOr({})
    ensures Get(WithoutUser(o.byUser, user, id), at).GetOr({}) == Get(WithoutUser(p.byUser, user, id), at).GetOr({})
  {
    assert Get(WithoutUser(o.byUser, user, id), at).GetOr({}) == if at == user then OrdersOf(o, user) - {id} else OrdersOf(o, at);
    assert Get(WithoutUser(p.byUser, user, id), at).GetOr({}) == if at == user then OrdersOf(p, user) - {id} else OrdersOf(p, at);
  }

  lemma OrdersAlike(o: Orders, p: Orders, spot: Spot, op: OrderOp)
    requires AlikeOrders(o, p)
    ensures AlikeOrders(OpOrders(o, spot, op), OpOrders(p, spot, op))
  {
    forall user
      ensures OrdersOf(OpOrders(o, spot, op), user) == OrdersOf(OpOrders(p, spot, op), user)
    {
      if op.Insert? {
        ListingAlike(o, p, op.order.UserKey(), op.order.id, user);
      } else if Find(o, spot, op.chain).Some? {
        var id := Find(o, spot, op.chain).value;
        ListingAlike(o, p, o.orders[id].UserKey(), id, user);
      }
    }
  }

  /** A call does the same to both memories, skips the same and learns the same. */
  lemma OpAlike(m: Mem, n: Mem, spot: Spot, op: Op)
    requires Alike(m, n)
    ensures Alike(OpMem(m, spot, op), OpMem(n, spot, op))
    ensures Skipped(m, spot, op) == Skipped(n, spot, op) && Learned(m, spot, op) == Learned(n, spot, op)
  {
    assert Bare(BookAt(m.books, spot)) == Bare(BookAt(n.books, spot));
    match op {
      case Commit(found) => if found.Some? { HydrationAlike(m, n, spot, found.value); }
      case OnBook(b, blockNum) => if EditOf(b).Some? { EditAlike(m, n, spot, b, blockNum); }
      case OnOrders(o) => OrdersAlike(m.orders, n.orders, spot, o);
      case VaultFill(chain, side, amount) => VaultAlike(m, n, spot, op);
      case _ =>
    }
  }

  lemma HydrationAlike(m: Mem, n: Mem, spot: Spot, h: Hydration)
    requires Alike(m, n)
    ensures Alike(OpMem(m, spot, Commit(Some(h))), OpMem(n, spot, Commit(Some(h))))
  {
    var a, b := BookAt(m.books, spot), BookAt(n.books, spot);
    BareHydration(a, b, h);
    BookSetAlike(m, n, spot, HydrateBook(a, h.book, h.last), HydrateBook(b, h.book, h.last));
  }

  lemma EditAlike(m: Mem, n: Mem, spot: Spot, op: BookOp, blockNum: u64)
    requires Alike(m, n) && EditOf(op).Some?
    ensures Alike(OpMem(m, spot, OnBook(op, blockNum)), OpMem(n, spot, OnBook(op, blockNum)))
  {
    var a, b := BookAt(m.books, spot), BookAt(n.books, spot);
    BareOp(a, b, op, blockNum);
    BookSetAlike(m, n, spot, OpBook(a, op, blockNum), OpBook(b, op, blockNum));
  }

  lemma VaultAlike(m: Mem, n: Mem, spot: Spot, op: Op)
    requires Alike(m, n) && op.VaultFill?
    ensures Alike(OpMem(m, spot, op), OpMem(n, spot, op))
  {
    var vault := VaultOfOrder(m, spot, op.chain);
    assert vault == VaultOfOrder(n, spot, op.chain);
    if vault.Some? && op.amount != 0 {
      var next := NextHolding(HoldingAt(m.holdings, vault.value, spot), op.side, op.amount);
      var after, other := OpMem(m, spot, op).holdings, OpMem(n, spot, op).holdings;
      forall v, at
        ensures HoldingAt(after, v, at) == HoldingAt(other, v, at)
      {
        Mirror.HoldingSet(m.holdings, vault.value, spot, next, v, at);
        Mirror.HoldingSet(n.holdings, vault.value, spot, next, v, at);
      }
    }
  }

  lemma {:induction false} CallsAlike(x: Exec, y: Exec, spot: Spot, calls: seq<Op>)
    requires Alike(x.mem, y.mem)
    ensures Alike(RunCalls(x, spot, calls).mem, RunCalls(y, spot, calls).mem)
    decreases |calls|
  {
    if calls != [] {
      OpAlike(x.mem, y.mem, spot, calls[0]);
      CallsAlike(OpExec(x, spot, calls[0]), OpExec(y, spot, calls[0]), spot, RestAfter(x.mem, spot, calls));
    }
  }

  // ---- The node's answers on replay ----

  function Answerless(e: MarketEvent): MarketEvent {
    match e
    case Created(chain, user, side, kind, amount, caption, _) => Created(chain, user, side, kind, amount, caption, NodeDown)
    case Updated(chain, side, price, oldAmount, newAmount, remaining, _) =>
      Updated(chain, side, price, oldAmount, newAmount, remaining, NodeDown)
    case Filled(chain, side, price, amount, remaining, full, timeMs, _) =>
      MarketEvent.Filled(chain, side, price, amount, remaining, full, timeMs, NodeDown)
    case _ => e
  }

  /** The same event, for which the node answers the same unless the market is hydrated, when it is not asked. */
  predicate Again(hydrated: set<Spot>, e: BlockEvent, f: BlockEvent) {
    && e.spot == f.spot && Answerless(e.event) == Answerless(f.event)
    && (e.spot.Some? && e.spot.value !in hydrated ==> e.event == f.event)
  }

  ghost predicate BlockAgain(hydrated: set<Spot>, a: seq<BlockEvent>, b: seq<BlockEvent>) {
    |a| == |b| && forall i :: 0 <= i < |a| ==> Again(hydrated, a[i], b[i])
  }

  ghost predicate ChainAgain(hydrated: set<Spot>, a: seq<LiveBlock>, b: seq<LiveBlock>) {
    && |a| == |b|
    && (forall i :: 0 <= i < |a| ==> a[i].head == b[i].head && BlockAgain(hydrated, a[i].events, b[i].events))
  }

  lemma SameAgain(hydrated: set<Spot>, a: seq<LiveBlock>)
    ensures ChainAgain(hydrated, a, a)
  {
    forall i | 0 <= i < |a|
      ensures BlockAgain(hydrated, a[i].events, a[i].events)
    {
    }
  }

  ghost predicate HydratedAll(m: Mem, hydrated: set<Spot>) {
    forall spot :: spot in hydrated ==> BookAt(m.books, spot).hydrated
  }

  lemma HydratedAsks(x: Exec, spot: Spot, blockNum: u64, e: MarketEvent, f: MarketEvent)
    requires BookAt(x.mem.books, spot).hydrated && Answerless(e) == Answerless(f) && !e.Filled?
    ensures Unfolded(x, spot, blockNum, e) == Unfolded(x, spot, blockNum, f)
  {
    if e.Created? {
      assert CreatedOrder(spot, e) == CreatedOrder(spot, f);
    } else if e.Executed? {
      assert e == f;
    }
  }

  lemma FilledAsks(x: Exec, spot: Spot, blockNum: u64, e: MarketEvent, f: MarketEvent)
    requires BookAt(x.mem.books, spot).hydrated && Answerless(e) == Answerless(f) && e.Filled?
    ensures Unfolded(x, spot, blockNum, e) == Unfolded(x, spot, blockNum, f)
  {
    var recorded := OpExec(x, spot, RecordTrade(e.price));
    assert EnsureHydrated(recorded, spot, e.node) == recorded && EnsureHydrated(recorded, spot, f.node) == recorded;
  }

  /** A hydrated market does not ask the node. */
  lemma AnswerIrrelevant(x: Exec, spot: Spot, blockNum: u64, e: MarketEvent, f: MarketEvent)
    requires BookAt(x.mem.books, spot).hydrated && Answerless(e) == Answerless(f)
    ensures RunEvent(x, spot, blockNum, e) == RunEvent(x, spot, blockNum, f)
  {
    EventUnfolds(x, spot, blockNum, e);
    EventUnfolds(x, spot, blockNum, f);
    if e.Filled? {
      FilledAsks(x, spot, blockNum, e, f);
    } else {
      HydratedAsks(x, spot, blockNum, e, f);
    }
  }

  lemma OpStaysHydrated(m: Mem, spot: Spot, op: Op, hydrated: set<Spot>)
    requires HydratedAll(m, hydrated)
    ensures HydratedAll(OpMem(m, spot, op), hydrated)
  {
    var after := OpMem(m, spot, op);
    forall at | at in hydrated
      ensures BookAt(after.books, at).hydrated
    {
      assert BookAt(m.books, at).hydrated;
    }
  }

  lemma {:induction false} CallsStayHydrated(x: Exec, spot: Spot, calls: seq<Op>, hydrated: set<Spot>)
    requires HydratedAll(x.mem, hydrated)
    ensures HydratedAll(RunCalls(x, spot, calls).mem, hydrated)
    decreases |calls|
  {
    if calls != [] {
      OpStaysHydrated(x.mem, spot, calls[0], hydrated);
      CallsStayHydrated(OpExec(x, spot, calls[0]), spot, RestAfter(x.mem, spot, calls), hydrated);
    }
  }

  lemma EventAlike(m: Mem, n: Mem, blockNum: u64, e: BlockEvent, f: BlockEvent, hydrated: set<Spot>)
    requires e.spot.Some? && Alike(m, n) && HydratedAll(m, hydrated) && Again(hydrated, e, f)
    ensures var after := RunEvent(Exec(m, EMPTY_DELTA), e.spot.value, blockNum, e.event).mem;
            && Alike(after, RunEvent(Exec(n, EMPTY_DELTA), e.spot.value, blockNum, f.event).mem)
            && HydratedAll(after, hydrated)
  {
    var spot, x, y := e.spot.value, Exec(m, EMPTY_DELTA), Exec(n, EMPTY_DELTA);
    CallsAlike(x, y, spot, Calls(spot, blockNum, e.event));
    CallsStayHydrated(x, spot, Calls(spot, blockNum, e.event), hydrated);
    if spot in hydrated {
      assert Bare(BookAt(m.books, spot)) == Bare(BookAt(n.books, spot));
      AnswerIrrelevant(y, spot, blockNum, e.event, f.event);
    }
  }

  lemma {:induction false} BlockAlike(m: Mem, n: Mem, blockNum: u64, a: seq<BlockEvent>, b: seq<BlockEvent>, hydrated: set<Spot>)
    requires Alike(m, n) && HydratedAll(m, hydrated) && BlockAgain(hydrated, a, b)
    ensures Alike(RunBlock(m, blockNum, a), RunBlock(n, blockNum, b)) && HydratedAll(RunBlock(m, blockNum, a), hydrated)
    decreases |a|
  {
    if a != [] {
      assert Again(hydrated, a[0], b[0]);
      if a[0].spot.Some? {
        var spot := a[0].spot.value;
        EventAlike(m, n, blockNum, a[0], b[0], hydrated);
        BlockAlike(RunEvent(Exec(m, EMPTY_DELTA), spot, blockNum, a[0].event).mem,
                   RunEvent(Exec(n, EMPTY_DELTA), spot, blockNum, b[0].event).mem, blockNum, a[1..], b[1..], hydrated);
      } else {
        BlockAlike(m, n, blockNum, a[1..], b[1..], hydrated);
      }
    }
  }

  /** Memories that agree still agree after the same blocks, whatever the node answers for hydrated markets. */
  lemma {:induction false} ChainAlike(m: Mem, n: Mem, a: seq<LiveBlock>, b: seq<LiveBlock>, hydrated: set<Spot>)
    requires Alike(m, n) && HydratedAll(m, hydrated) && ChainAgain(hydrated, a, b)
    ensures Alike(RunChain(m, a), RunChain(n, b))
  {
    PrefixAlike(m, n, a, b, hydrated, |a|);
  }

  lemma {:induction false} PrefixAlike(m: Mem, n: Mem, a: seq<LiveBlock>, b: seq<LiveBlock>, hydrated: set<Spot>, k: nat)
    requires Alike(m, n) && HydratedAll(m, hydrated) && ChainAgain(hydrated, a, b) && k <= |a|
    ensures Alike(RunRange(m, a, 0, k), RunRange(n, b, 0, k)) && HydratedAll(RunRange(m, a, 0, k), hydrated)
  {
    if k > 0 {
      PrefixAlike(m, n, a, b, hydrated, k - 1);
      BlockAlike(RunRange(m, a, 0, k - 1), RunRange(n, b, 0, k - 1), a[k - 1].head.blockNum,
                 a[k - 1].events, b[k - 1].events, hydrated);
    }
  }

  lemma {:induction false} RangeAlike(m: Mem, other: Mem, chain: seq<LiveBlock>, from: nat, n: nat)
    requires from <= n <= |chain| && Alike(m, other)
    ensures Alike(RunRange(m, chain, from, n), RunRange(other, chain, from, n))
    decreases n
  {
    if from < n {
      var b := chain[n - 1];
      RangeAlike(m, other, chain, from, n - 1);
      BlockAlike(RunRange(m, chain, from, n - 1), RunRange(other, chain, from, n - 1), b.head.blockNum, b.events, b.events, {});
    }
  }

  // ---- What every block keeps ----

  ghost predicate NoEmptyLevels(m: Mem) {
    forall spot :: BookAt(m.books, spot).NoEmptyLevel()
  }

  /** Order maps that describe the same orders under derived ids, and books without empty levels. */
  ghost predicate Sound(m: Mem) {
    Coherent(m.orders) && Keyed(m.orders.orders) && Parallel.IdsDerived(m.orders) && NoEmptyLevels(m)
  }

  /** An order whose composite id is not known is new. */
  lemma UnknownIsNew(o: Orders, s: StoredOrder)
    requires Coherent(o) && Parallel.IdsDerived(o) && s.id == V5(s.spot, s.chain) && s.Key() !in o.byId
    ensures s.id !in o.orders && Reinsertable(o, s)
  {
    assert s.id in o.orders ==> o.orders[s.id].Key() == s.Key();
  }

  predicate Inserts(op: Op) {
    op.OnOrders? && op.order.Insert?
  }

  lemma OpSound(m: Mem, spot: Spot, op: Op)
    requires Sound(m) && Parallel.WellFormed(spot, op)
    requires Inserts(op) ==> op.order.order.Key() !in m.orders.byId
    ensures Sound(OpMem(m, spot, op)) && OpMem(m, spot, op).vaultOf == m.vaultOf
  {
    Parallel.DerivedKept(m, spot, op);
    if op.OnOrders? {
      if Inserts(op) {
        UnknownIsNew(m.orders, op.order.order);
      }
      OpCoherent(m.orders, spot, op.order);
    }
    OpNoEmpty(m, spot, op);
  }

  lemma BookSetNoEmpty(m: Mem, spot: Spot, b: Book)
    requires NoEmptyLevels(m) && b.NoEmptyLevel()
    ensures NoEmptyLevels(m.(books := m.books[spot := b]))
  {
    var after := m.books[spot := b];
    forall at
      ensures BookAt(after, at).NoEmptyLevel()
    {
      assert BookAt(m.books, at).NoEmptyLevel();
    }
  }

  lemma OpNoEmpty(m: Mem, spot: Spot, op: Op)
    requires NoEmptyLevels(m)
    ensures NoEmptyLevels(OpMem(m, spot, op))
  {
    var b := BookAt(m.books, spot);
    assert b.NoEmptyLevel();
    match op {
      case Commit(found) =>
        if found.Some? {
          NoEmptyLevelKept(b, BookCreated(Buy, 0, 0), 0, found.value.book, found.value.last);
          BookSetNoEmpty(m, spot, HydrateBook(b, found.value.book, found.value.last));
        }
      case OnBook(o, blockNum) =>
        if EditOf(o).Some? {
          NoEmptyLevelKept(b, o, blockNum, ChainBook([], []), None);
          BookSetNoEmpty(m, spot, OpBook(b, o, blockNum));
        }
      case _ =>
    }
  }

  lemma HydrationSound(x: Exec, spot: Spot, node: NodeAnswer)
    requires Sound(x.mem)
    ensures var y := EnsureHydrated(x, spot, node).mem;
            Sound(y) && y.orders == x.mem.orders && y.vaultOf == x.mem.vaultOf
  {
    OpSound(x.mem, spot, Commit(HydrationOf(Get(x.mem.last, spot), node)));
  }

  lemma EventSound(x: Exec, spot: Spot, blockNum: u64, e: MarketEvent)
    requires Sound(x.mem)
    ensures var y := RunEvent(x, spot, blockNum, e).mem; Sound(y) && y.vaultOf == x.mem.vaultOf
  {
    EventUnfolds(x, spot, blockNum, e);
    match e {
      case Created(chain, _, side, kind, amount, _, node) =>
        if OnchainId(spot, chain) !in x.mem.orders.byId {
          var x1 := EnsureHydrated(x, spot, node);
          HydrationSound(x, spot, node);
          var x2 := x1;
          if kind.Limit? {
            OpSound(x1.mem, spot, OnBook(BookCreated(side, kind.price, amount), blockNum));
            x2 := OpExec(x1, spot, OnBook(BookCreated(side, kind.price, amount), blockNum));
          }
          OpSound(x2.mem, spot, OnOrders(Insert(CreatedOrder(spot, e))));
        }
      case Cancelled(chain, side, price, amount) =>
        PairSound(x, spot, OnBook(BookCancelled(side, price, amount), blockNum), OnOrders(Cancel(chain)));
      case Updated(chain, side, price, oldAmount, newAmount, remaining, node) =>
        HydrationSound(x, spot, node);
        PairSound(EnsureHydrated(x, spot, node), spot,
                  OnBook(BookUpdated(side, price, oldAmount, newAmount, remaining), blockNum),
                  OnOrders(Amend(chain, newAmount, remaining)));
      case Filled(_, _, _, _, _, _, _, _) => FilledSound(x, spot, blockNum, e);
      case Executed(chain, _, _, _, _, _, _) =>
        if OnchainId(spot, chain) !in x.mem.orders.byId {
          OpSound(x.mem, spot, OnOrders(Insert(ExecutedOrder(spot, e))));
        }
    }
  }

  lemma PairSound(x: Exec, spot: Spot, a: Op, b: Op)
    requires Sound(x.mem) && !Inserts(a) && !Inserts(b)
    ensures var y := OpExec(OpExec(x, spot, a), spot, b).mem; Sound(y) && y.vaultOf == x.mem.vaultOf
  {
    OpSound(x.mem, spot, a);
    OpSound(OpMem(x.mem, spot, a), spot, b);
  }

  lemma FilledSound(x: Exec, spot: Spot, blockNum: u64, e: MarketEvent)
    requires Sound(x.mem) && e.Filled?
    ensures var y := Unfolded(x, spot, blockNum, e).mem; Sound(y) && y.vaultOf == x.mem.vaultOf
  {
    var x1 := OpExec(x, spot, RecordTrade(e.price));
    var x2 := EnsureHydrated(x1, spot, e.node);
    var edited := OnBook(BookFilled(e.side, e.price, e.amount, e.price, e.timeMs), blockNum);
    var filled := OnOrders(Fill(e.chain, e.amount, e.remaining, e.full));
    OpSound(x.mem, spot, RecordTrade(e.price));
    HydrationSound(x1, spot, e.node);
    PairSound(x2, spot, edited, filled);
    OpSound(OpExec(OpExec(x2, spot, edited), spot, filled).mem, spot, VaultFill(e.chain, e.side, e.amount));
  }

  lemma {:induction false} BlockSound(m: Mem, blockNum: u64, block: seq<BlockEvent>)
    requires Sound(m)
    ensures Sound(RunBlock(m, blockNum, block)) && RunBlock(m, blockNum, block).vaultOf == m.vaultOf
    decreases |block|
  {
    if block != [] {
      if block[0].spot.Some? {
        var x := Exec(m, EMPTY_DELTA);
        EventSound(x, block[0].spot.value, blockNum, block[0].event);
        BlockSound(RunEvent(x, block[0].spot.value, blockNum, block[0].event).mem, blockNum, block[1..]);
      } else {
        BlockSound(m, blockNum, block[1..]);
      }
    }
  }

  /** Any blocks keep the order maps coherent and the books free of empty levels. */
  lemma {:induction false} ChainSound(m: Mem, chain: seq<LiveBlock>, from: nat, n: nat)
    requires from <= n <= |chain| && Sound(m)
    ensures Sound(RunRange(m, chain, from, n)) && RunRange(m, chain, from, n).vaultOf == m.vaultOf
    decreases n
  {
    if from < n {
      ChainSound(m, chain, from, n - 1);
      BlockSound(RunRange(m, chain, from, n - 1), chain[n - 1].head.blockNum, chain[n - 1].events);
    }
  }
}
