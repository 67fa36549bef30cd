/**
 A process that recovers, runs and crashes, again and again (src/app.rs, src/indexer/mod.rs): replayed blocks
 leave no write sets, so what the tables hold after a restart is settled by the sets that are written later.
 */
module Restarts {
  import opened Ints
  import opened WriteSets
  import opened Books
  import opened OrderIndex
  import opened Processor
  import opened Mirror
  import Parallel
  import opened Grouping
  import opened Replay
  import opened Snapshot
  import opened Recovery
  import Pipeline
  import Checkpoint

  /** The blocks of the chain, with memory and the head of the tables before the first of them. */
  datatype Chain = Chain(origin: Option<Head>, genesis: Mem, blocks: seq<LiveBlock>) {
    ghost predicate Valid() { Ascending(origin, blocks) }

    function At(k: nat): Mem
      requires k <= |blocks|
    {
      RunRange(genesis, blocks, 0, k)
    }

    function Head(k: nat): Option<Head>
      requires k <= |blocks|
    {
      HeadAt(origin, blocks, k)
    }
  }

  /**
   One process: the tables it finds and the memory they stand for, after `height` blocks; its memory after
   loading them and replaying the blocks before `from`; what its stages do with the blocks before `end`, and the
   state they are in when it is over.
   */
  datatype Life = Life(
    db: Db, saved: Mem, height: nat, memory: Mem, from: nat, end: nat,
    actions: seq<Pipeline.Action>, epochLength: u64, last: Pipeline.State)

  ghost predicate InRange(c: Chain, x: Life) {
    x.height <= x.from <= x.end <= |c.blocks| && x.last.written <= |x.last.log|
  }

  /** The block the tables are at in the end. */
  function HeightAfter(c: Chain, x: Life): nat
    requires InRange(c, x)
  {
    if x.last.written == 0 then x.height else Reached(x.last.log, c.blocks, x.from, x.last.written)
  }

  ghost predicate Bounded(c: Chain, x: Life) {
    InRange(c, x) && HeightAfter(c, x) <= x.end
  }

  /** The memory that the tables should stand for in the end. */
  function SavedAfter(c: Chain, x: Life): Mem
    requires Bounded(c, x)
  {
    if x.last.written == 0 then x.saved else RunRange(x.memory, c.blocks, x.from, HeightAfter(c, x))
  }

  /** The stages run from these tables, and no full replace misses a row. */
  ghost predicate Lived(c: Chain, x: Life) {
    && Bounded(c, x)
    && x.db.head == c.Head(x.height)
    && Pipeline.Run(x.db, c.Head(x.from), x.actions, x.epochLength) == Some(x.last) && !x.last.stale
    && LogFits(x.last.log, c.origin, x.memory, c.blocks, x.from, x.last.written)
  }

  /** Every row in which the tables differed from memory at the start was written again, if any was written. */
  ghost predicate Kept(x: Life)
    requires x.last.written <= |x.last.log|
  {
    x.last.written > 0 ==> AllRepaired(x.db.rows, x.memory, x.last.log, x.last.written)
  }

  // ---- The tables a process leaves ----

  /** What is left of a life when it is over: the sets it wrote and where they lead. */
  ghost predicate Wrote(c: Chain, x: Life) {
    && Bounded(c, x)
    && x.db.head == c.Head(x.height)
    && x.last.db == Pipeline.Fold(x.db, x.last.log[..x.last.written])
    && (x.last.written > 0 ==> Leads(x.db, x.last.log, c.origin, x.memory, c.blocks, x.from, x.last.written))
  }

  lemma {:induction false} LivedWrote(c: Chain, x: Life)
    requires Lived(c, x)
    ensures Wrote(c, x)
  {
    Pipeline.PrefixDurability(x.db, c.Head(x.from), x.actions, x.epochLength);
    if x.last.written > 0 {
      SetsLead(x.db, x.last.log, c.origin, x.memory, c.blocks, x.from, x.last.written);
    }
  }

  lemma {:induction false} WroteKeepIff(c: Chain, x: Life)
    requires Wrote(c, x) && Mirrors(x.db.rows, x.saved)
    ensures x.last.db.head == c.Head(HeightAfter(c, x))
    ensures Mirrors(x.last.db.rows, SavedAfter(c, x)) <==> Kept(x)
  {
    if x.last.written == 0 {
      assert x.last.log[..0] == [];
    }
  }

  /**
   The tables that a process leaves mirror memory at the block of their head, if and only if every row that
   the replayed blocks had changed was written again, by a set that names it or by a full one.
   */
  lemma {:induction false} TablesKeepIff(c: Chain, x: Life)
    requires Lived(c, x) && Mirrors(x.db.rows, x.saved)
    ensures x.last.db.head == c.Head(HeightAfter(c, x))
    ensures Mirrors(x.last.db.rows, SavedAfter(c, x)) <==> Kept(x)
  {
    LivedWrote(c, x);
    WroteKeepIff(c, x);
  }

  // ---- When the condition is met ----

  /** A full set written first puts everything right. */
  lemma FullFirstKeeps(x: Life)
    requires x.last.written <= |x.last.log| && (x.last.written > 0 ==> x.last.log[0].fullReplace)
    ensures Kept(x)
  {
    if x.last.written > 0 {
      forall k | InScope(k)
        ensures Repaired(x.last.log, x.last.written, k)
      {
        assert x.last.log[0].fullReplace;
      }
    }
  }

  /** The store does not see recent trades or users without orders. */
  lemma AlikePersisted(m: Mem, n: Mem, k: RowKey)
    requires Alike(m, n) && InScope(k)
    ensures Persisted(m, k) == Persisted(n, k)
  {
    if k.LevelKey? || k.BookMetaKey? {
      assert Bare(BookAt(m.books, k.spot)) == Bare(BookAt(n.books, k.spot));
    }
  }

  // ---- One restart ----

  lemma AlikeSame(m: Mem)
    ensures Alike(m, m)
  {
  }

  lemma AlikeThrough(m: Mem, n: Mem, o: Mem)
    requires Alike(m, n) && Alike(n, o)
    ensures Alike(m, o) && Alike(n, m)
  {
    forall spot
      ensures Bare(BookAt(m.books, spot)) == Bare(BookAt(o.books, spot))
    {
      assert Bare(BookAt(m.books, spot)) == Bare(BookAt(n.books, spot));
    }
    forall user
      ensures OrdersOf(m.orders, user) == OrdersOf(o.orders, user)
    {
      assert OrdersOf(m.orders, user) == OrdersOf(n.orders, user);
    }
  }

  /** What the process finds and what it starts with are the memories of the chain. */
  ghost predicate Stands(c: Chain, x: Life)
    requires InRange(c, x)
  {
    && Mirrors(x.db.rows, x.saved)
    && Sound(x.saved) && Alike(x.saved, c.At(x.height))
    && Sound(x.memory) && Alike(x.memory, c.At(x.from))
  }

  /** A process that replayed nothing starts with tables that mirror its memory. */
  lemma NothingReplayedKeeps(c: Chain, x: Life)
    requires InRange(c, x) && Stands(c, x) && x.height == x.from
    ensures Kept(x)
  {
    forall k | InScope(k)
      ensures Get(x.db.rows, k) == Persisted(x.memory, k)
    {
      AlikePersisted(x.memory, c.At(x.from), k);
      AlikePersisted(x.saved, c.At(x.height), k);
    }
  }

  lemma {:induction false} LiveAlike(c: Chain, m: Mem, from: nat, n: nat)
    requires from <= n <= |c.blocks| && Alike(m, c.At(from))
    ensures Alike(RunRange(m, c.blocks, from, n), c.At(n))
  {
    RangeAlike(m, c.At(from), c.blocks, from, n);
    RangeJoin(c.genesis, c.blocks, 0, from, n);
  }

  /** The tables left stand for the memory of the chain at their head. */
  lemma {:induction false} StandsAfter(c: Chain, x: Life)
    requires Bounded(c, x) && Stands(c, x)
    ensures Sound(SavedAfter(c, x)) && Alike(SavedAfter(c, x), c.At(HeightAfter(c, x)))
  {
    if x.last.written > 0 {
      LiveAlike(c, x.memory, x.from, HeightAfter(c, x));
      ChainSound(x.memory, c.blocks, x.from, HeightAfter(c, x));
    }
  }

  /** What the next process loads and replays. */
  ghost predicate Reloads(c: Chain, x: Life, l: Loaded, again: seq<LiveBlock>)
    requires Bounded(c, x)
  {
    IsLoad(x.last.db.rows, l) && ChainAgain(Known(SavedAfter(c, x)), BlocksAfter(c.blocks, x.end, x.last.db.head), again)
  }

  ghost predicate Survives(m: Mem) {
    AllFit(m) && AllHydrated(m)
  }

  lemma RestoredSound(m: Mem)
    requires Sound(m)
    ensures Sound(Restored(m, m.vaultOf))
  {
  }

  /**
   Recovery loses nothing once the rows of earlier replays are written: at any moment of the run, loading the
   tables as they are and replaying the stored blocks after their head gives the memory that applied every
   block, however many sets were unwritten, and whatever the node answers on replay for markets already known.
   */
  lemma {:induction false} RecoveryRestores(c: Chain, x: Life, l: Loaded, again: seq<LiveBlock>)
    requires c.Valid() && Lived(c, x) && Stands(c, x) && Kept(x)
    requires Survives(SavedAfter(c, x)) && Reloads(c, x, l, again)
    ensures var m := RunChain(Imported(l, SavedAfter(c, x).vaultOf), again);
            Sound(m) && Alike(m, c.At(x.end))
  {
    var saved, h := SavedAfter(c, x), HeightAfter(c, x);
    StandsAfter(c, x);
    TablesKeepIff(c, x);
    AfterHead(c.origin, c.blocks, h, x.end);
    Reloaded(c, x.last.db.rows, saved, h, x.end, l, again);
  }

  lemma {:induction false} Reloaded(c: Chain, rows: Rows, saved: Mem, h: nat, n: nat, l: Loaded, again: seq<LiveBlock>)
    requires h <= n <= |c.blocks| && Mirrors(rows, saved) && Sound(saved) && Survives(saved)
    requires Alike(saved, c.At(h)) && IsLoad(rows, l) && ChainAgain(Known(saved), Between(c.blocks, h, n), again)
    ensures var m := RunChain(Imported(l, saved.vaultOf), again);
            Sound(m) && Alike(m, c.At(n))
  {
    var m := RunChain(Imported(l, saved.vaultOf), again);
    LoadAndReplay(rows, saved, l, Between(c.blocks, h, n), again);
    RunBetween(saved, c.blocks, h, n);
    LiveAlike(c, saved, h, n);
    AlikeThrough(m, RunRange(saved, c.blocks, h, n), c.At(n));
    MirrorRoundTrip(rows, saved, l, saved.vaultOf);
    RestoredSound(saved);
    ChainSound(Imported(l, saved.vaultOf), again, 0, |again|);
  }

  // ---- Any number of restarts ----

  /** The next process starts with the tables the last one left. */
  ghost predicate Restarted(c: Chain, x: Life, y: Life)
    requires Bounded(c, x)
  {
    && y.db == x.last.db && y.saved == SavedAfter(c, x) && y.height == HeightAfter(c, x) && y.from == x.end
    && exists l, again :: Reloads(c, x, l, again) && y.memory == RunChain(Imported(l, y.saved.vaultOf), again)
  }

  lemma {:induction false} RestartStands(c: Chain, x: Life, y: Life)
    requires c.Valid() && Lived(c, x) && Stands(c, x) && Kept(x) && Survives(SavedAfter(c, x)) && Restarted(c, x, y)
    requires InRange(c, y)
    ensures Stands(c, y)
  {
    var l, again :| Reloads(c, x, l, again) && y.memory == RunChain(Imported(l, y.saved.vaultOf), again);
    RecoveryRestores(c, x, l, again);
    StandsAfter(c, x);
    TablesKeepIff(c, x);
  }

  ghost predicate LivedWell(c: Chain, x: Life) {
    Lived(c, x) && Kept(x) && Survives(SavedAfter(c, x))
  }

  /**
   However often the process restarts, its memory is at every start the one that applied each block once,
   provided each of them wrote again what the replay before it had changed.
   */
  lemma {:induction false} RestartsRestore(c: Chain, lives: seq<Life>, n: nat)
    requires c.Valid() && n < |lives| && (forall i :: 0 <= i <= n ==> InRange(c, lives[i])) && Stands(c, lives[0])
    requires forall i :: 0 <= i < n ==> LivedWell(c, lives[i]) && Restarted(c, lives[i], lives[i + 1])
    ensures Stands(c, lives[n])
  {
    if n > 0 {
      RestartsRestore(c, lives, n - 1);
      RestartStands(c, lives[n - 1], lives[n]);
    }
  }

  // ---- When it is not met ----

  /** The set of a block without order events. */
  function EmptySet(b: LiveBlock): WriteSet {
    WriteSet(b.head.blockNum, b.head.digest, false, EMPTY_DELTA)
  }

  lemma {:induction false} EmptyCollects(m: Mem, b: LiveBlock)
    requires Parallel.IdsDerived(m.orders) && b.events == []
    ensures Collects(EMPTY_DELTA, m, b)
  {
    var none := Parallel.Conf(m, []);
    assert Grouping.Holds(none, b.events);
    assert CollectedBy(EMPTY_DELTA, m, b, none, [], []);
  }

  lemma {:induction false} EmptyFits(c: Chain, m: Mem, h: nat)
    requires h < |c.blocks| && c.blocks[h].events == [] && Parallel.IdsDerived(m.orders)
    ensures LogFits([EmptySet(c.blocks[h])], c.origin, m, c.blocks, h, 1)
  {
    var log := [EmptySet(c.blocks[h])];
    EmptyCollects(m, c.blocks[h]);
    assert FitsHere(log, c.origin, m, c.blocks, h, 0);
    assert LogFits(log, c.origin, m, c.blocks, h, 0);
  }

  lemma EmptyRun(db: Db, head: Option<Head>, b: LiveBlock) returns (actions: seq<Pipeline.Action>, end: Pipeline.State)
    ensures Pipeline.Run(db, head, actions, 1000) == Some(end)
    ensures !end.stale && end.written == 1 && end.log == [EmptySet(b)] && end.db == Db(db.rows, Some(b.head))
  {
    actions := Checkpoint.WriteOne(db, head, EmptySet(b));
    end := Checkpoint.OneBlockState(db, head, EmptySet(b));
    assert end.db.rows == db.rows;
  }

  /** A process that finds block h, replays the next one and writes the empty set of the one after. */
  lemma {:induction false} WritesEmpty(c: Chain, db: Db, saved: Mem, h: nat, memory: Mem) returns (x: Life)
    requires h + 2 <= |c.blocks| && c.blocks[h + 1].events == []
    requires db.head == c.Head(h) && Parallel.IdsDerived(memory.orders)
    ensures x.db == db && x.saved == saved && x.height == h && x.memory == memory && x.from == h + 1 && x.end == h + 2
    ensures Lived(c, x) && x.last.written == 1 && x.last.log == [EmptySet(c.blocks[h + 1])]
    ensures x.last.db == Db(db.rows, c.Head(h + 2))
  {
    var b, head := c.blocks[h + 1], c.Head(h + 1);
    var actions, last := EmptyRun(db, head, b);
    x := Life(db, saved, h, memory, h + 1, h + 2, actions, 1000, last);
    EmptyFits(c, memory, h + 1);
  }

  /** The store is found after block h, and block h + 1 is replayed. */
  ghost predicate Found(c: Chain, db: Db, saved: Mem, h: nat, l: Loaded) {
    && h <= |c.blocks| && db.head == c.Head(h) && Mirrors(db.rows, saved) && Sound(saved) && Survives(saved)
    && Alike(saved, c.At(h)) && IsLoad(db.rows, l)
  }

  lemma {:induction false} ReplayOne(c: Chain, db: Db, saved: Mem, h: nat, l: Loaded)
    requires h < |c.blocks| && Found(c, db, saved, h, l)
    ensures var m := RunChain(Imported(l, saved.vaultOf), [c.blocks[h]]);
            Sound(m) && Alike(m, c.At(h + 1))
  {
    BetweenOne(c.blocks, h);
    SameAgain(Known(saved), [c.blocks[h]]);
    Reloaded(c, db.rows, saved, h, h + 1, l, [c.blocks[h]]);
  }

  /** A store whose head is ahead of its rows gives the old rows back. */
  lemma {:induction false} OldRowsLoad(c: Chain, rows: Rows, saved: Mem, h: nat, k: RowKey, l: Loaded)
    requires h <= |c.blocks| && Mirrors(rows, saved) && Sound(saved) && Survives(saved) && Alike(saved, c.At(h))
    requires IsLoad(rows, l) && InScope(k)
    ensures Persisted(Imported(l, saved.vaultOf), k) == Persisted(c.At(h), k)
  {
    MirrorRoundTrip(rows, saved, l, saved.vaultOf);
    RestoredAlikeIff(saved);
    AlikePersisted(Restored(saved, saved.vaultOf), saved, k);
    AlikePersisted(saved, c.At(h), k);
  }

  lemma RowTells(m: Mem, n: Mem, k: RowKey)
    requires InScope(k) && Persisted(m, k) != Persisted(n, k)
    ensures !Alike(m, n)
  {
    if Alike(m, n) {
      AlikePersisted(m, n, k);
    }
  }

  lemma {:induction false} NothingAfter(c: Chain, n: nat)
    requires c.Valid() && n <= |c.blocks|
    ensures BlocksAfter(c.blocks, n, c.Head(n)) == []
  {
    AfterHead(c.origin, c.blocks, n, n);
  }

  /** Whatever is loaded from the rows, the row is the old one and memory is not that of the chain. */
  ghost predicate Lost(c: Chain, rows: Rows, vaultOf: map<string, string>, h: nat, n: nat, k: RowKey)
    requires h <= |c.blocks| && n <= |c.blocks| && InScope(k)
  {
    forall l :: IsLoad(rows, l) ==>
      Persisted(Imported(l, vaultOf), k) == Persisted(c.At(h), k) && !Alike(Imported(l, vaultOf), c.At(n))
  }

  lemma {:induction false} RowsLost(c: Chain, rows: Rows, saved: Mem, h: nat, n: nat, k: RowKey)
    requires h <= |c.blocks| && Mirrors(rows, saved) && Sound(saved) && Survives(saved) && Alike(saved, c.At(h))
    requires n <= |c.blocks| && InScope(k) && Persisted(c.At(h), k) != Persisted(c.At(n), k)
    ensures Lost(c, rows, saved.vaultOf, h, n, k)
  {
    forall l | IsLoad(rows, l)
      ensures Persisted(Imported(l, saved.vaultOf), k) == Persisted(c.At(h), k)
      ensures !Alike(Imported(l, saved.vaultOf), c.At(n))
    {
      OldRowsLoad(c, rows, saved, h, k, l);
      RowTells(Imported(l, saved.vaultOf), c.At(n), k);
    }
  }

  lemma {:induction false} EmptyBlock(c: Chain, h: nat)
    requires h < |c.blocks| && c.blocks[h].events == []
    ensures c.At(h + 1) == c.At(h)
  {
  }

  /**
   A second restart loses what the first one replayed: for every store and every replayed block that changes
   some row, when the next block names no row and its set is written. The head is then past both blocks,
   nothing is replayed, and the row is the old one.
   */
  lemma {:induction false} RestartLoses(c: Chain, db: Db, saved: Mem, h: nat, l: Loaded, k: RowKey) returns (x: Life)
    requires c.Valid() && h + 2 <= |c.blocks| && c.blocks[h + 1].events == [] && Found(c, db, saved, h, l)
    requires InScope(k) && Persisted(c.At(h), k) != Persisted(c.At(h + 1), k)
    ensures x.db == db && x.height == h && x.from == h + 1 && x.end == h + 2
    ensures x.memory == RunChain(Imported(l, saved.vaultOf), [c.blocks[h]])
    ensures Lived(c, x) && Stands(c, x) && !Kept(x)
    ensures BlocksAfter(c.blocks, x.end, x.last.db.head) == [] && Lost(c, x.last.db.rows, saved.vaultOf, h, x.end, k)
  {
    ReplayOne(c, db, saved, h, l);
    x := WritesEmpty(c, db, saved, h, RunChain(Imported(l, saved.vaultOf), [c.blocks[h]]));
    NothingAfter(c, h + 2);
    EmptyBlock(c, h + 1);
    RowsLost(c, db.rows, saved, h, h + 2, k);
    NotKept(x, c.At(h), c.At(h + 1), k);
  }

  lemma NotKept(x: Life, before: Mem, now: Mem, k: RowKey)
    requires x.last.written == 1 && |x.last.log| == 1 && x.last.log[0].delta == EMPTY_DELTA && !x.last.log[0].fullReplace
    requires Mirrors(x.db.rows, x.saved) && Alike(x.saved, before) && Alike(x.memory, now)
    requires InScope(k) && Persisted(before, k) != Persisted(now, k)
    ensures !Kept(x)
  {
    AlikePersisted(x.saved, before, k);
    AlikePersisted(x.memory, now, k);
    assert !Repaired(x.last.log, 1, k);
  }

  /** A block with one new order changes the row of that order. */
  lemma {:induction false} NewOrderRow(m: Mem, b: LiveBlock, spot: Spot, e: MarketEvent)
    requires Sound(m) && e.Created? && b.events == [BlockEvent(Some(spot), e)]
    requires OnchainId(spot, e.chain) !in m.orders.byId
    ensures var k := OrderKey(V5(spot, e.chain));
            Persisted(m, k) == None && Persisted(RunBlock(m, b.head.blockNum, b.events), k).Some?
  {
    var x := Exec(m, EMPTY_DELTA);
    var y := RunEvent(x, spot, b.head.blockNum, e).mem;
    EventUnfolds(x, spot, b.head.blockNum, e);
    assert b.events[1..] == [];
    assert RunBlock(m, b.head.blockNum, b.events) == y;
    UnknownIsNew(m.orders, CreatedOrder(spot, e));
    assert V5(spot, e.chain) in y.orders.orders;
  }

  lemma {:induction false} RowOfOrderLost(c: Chain, db: Db, saved: Mem, h: nat, l: Loaded, id: OrderUuid) returns (x: Life)
    requires c.Valid() && h + 2 <= |c.blocks| && c.blocks[h + 1].events == [] && Found(c, db, saved, h, l)
    requires Persisted(c.At(h), OrderKey(id)) == None && Persisted(c.At(h + 1), OrderKey(id)).Some?
    ensures x.db == db && Lived(c, x) && Stands(c, x)
    ensures id in x.memory.orders.orders && BlocksAfter(c.blocks, x.end, x.last.db.head) == []
    ensures forall after :: IsLoad(x.last.db.rows, after) ==> id !in Imported(after, saved.vaultOf).orders.orders
  {
    x := RestartLoses(c, db, saved, h, l, OrderKey(id));
    InMemory(x.memory, c.At(h + 1), id);
    LostOrder(c, x.last.db.rows, saved.vaultOf, h, x.end, id);
  }

  /** An order created in a replayed block is gone after the second restart. */
  lemma {:induction false} RestartLosesOrder(c: Chain, db: Db, saved: Mem, h: nat, l: Loaded, spot: Spot, e: MarketEvent)
    returns (x: Life)
    requires c.Valid() && h + 2 <= |c.blocks| && c.blocks[h + 1].events == [] && Found(c, db, saved, h, l)
    requires Sound(c.At(h)) && c.blocks[h].events == [BlockEvent(Some(spot), e)] && e.Created?
    requires OnchainId(spot, e.chain) !in c.At(h).orders.byId
    ensures x.db == db && Lived(c, x) && Stands(c, x)
    ensures V5(spot, e.chain) in x.memory.orders.orders && BlocksAfter(c.blocks, x.end, x.last.db.head) == []
    ensures forall after :: IsLoad(x.last.db.rows, after) ==>
              V5(spot, e.chain) !in Imported(after, saved.vaultOf).orders.orders
  {
    NewOrderAt(c, h, spot, e);
    x := RowOfOrderLost(c, db, saved, h, l, V5(spot, e.chain));
  }

  lemma {:induction false} NewOrderAt(c: Chain, h: nat, spot: Spot, e: MarketEvent)
    requires h < |c.blocks| && Sound(c.At(h)) && c.blocks[h].events == [BlockEvent(Some(spot), e)] && e.Created?
    requires OnchainId(spot, e.chain) !in c.At(h).orders.byId
    ensures var k := OrderKey(V5(spot, e.chain)); Persisted(c.At(h), k) == None && Persisted(c.At(h + 1), k).Some?
  {
    NewOrderRow(c.At(h), c.blocks[h], spot, e);
  }

  lemma InMemory(m: Mem, n: Mem, id: OrderUuid)
    requires Alike(m, n) && Persisted(n, OrderKey(id)).Some?
    ensures id in m.orders.orders
  {
    AlikePersisted(m, n, OrderKey(id));
  }

  lemma {:induction false} LostOrder(c: Chain, rows: Rows, vaultOf: map<string, string>, h: nat, n: nat, id: OrderUuid)
    requires h <= |c.blocks| && n <= |c.blocks| && Persisted(c.At(h), OrderKey(id)) == None
    requires Lost(c, rows, vaultOf, h, n, OrderKey(id))
    ensures forall l :: IsLoad(rows, l) ==> id !in Imported(l, vaultOf).orders.orders
  {
    forall l | IsLoad(rows, l)
      ensures id !in Imported(l, vaultOf).orders.orders
    {
      assert Persisted(Imported(l, vaultOf), OrderKey(id)) == None;
    }
  }
}
