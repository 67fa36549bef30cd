/**
 Restarting after a crash (`recover_from_persist`, src/indexer/mod.rs): the tables as the writer left them,
 loaded into an empty index, and the stored blocks after their head, give the memory that applied every block.
 */
module Recovery {
  import opened Ints
  import opened WriteSets
  import opened Books
  import opened OrderIndex
  import opened Processor
  import opened Mirror
  import Parallel
  import opened Grouping
  import opened Replay
  import opened Snapshot
  import Pipeline

  // ---- The write sets of the chain ----

  /** Some interleaving of the block's tasks, merged in some order, collects the delta. */
  ghost predicate Collects(d: Delta, m: Mem, b: LiveBlock) {
    exists c, schedule, order :: CollectedBy(d, m, b, c, schedule, order)
  }

  ghost predicate CollectedBy(d: Delta, m: Mem, b: LiveBlock, c: Parallel.Conf, schedule: seq<nat>, order: seq<nat>) {
    var end := Parallel.RunSchedule(c, schedule, b.head.blockNum);
    && c.mem == m && Grouping.Holds(c, b.events) && (forall i :: 0 <= i < |c.tasks| ==> Parallel.Fresh(c.tasks[i]))
    && Parallel.Finished(end) && Parallel.Covers(order, |c.tasks|)
    && |end.tasks| == |c.tasks| && d == Parallel.MergeInOrder(EMPTY_DELTA, end.tasks, order)
  }

  /** A full write set of memory, all of whose amounts fit. */
  ghost predicate Saves(d: Delta, m: Mem) {
    AllFit(m) && d.del == {} && exists globals :: Exports(d.store, m, globals)
  }

  /**
   The block at which a full set was collected that is queued when the sets of h blocks are: the h-th, or the
   one after, which may be applied while its own set is not queued yet and is then overtaken.
   */
  function SavedAt(ws: WriteSet, chain: seq<LiveBlock>, h: nat): nat {
    if h < |chain| && Pipeline.HeadOf(ws) == chain[h].head then h + 1 else h
  }

  /**
   The stages of a process that starts with memory m at block `from` queue a set when the sets of the blocks
   before h are queued: that of block h, or a full one of memory.
   */
  ghost predicate SetFits(ws: WriteSet, origin: Option<Head>, m: Mem, chain: seq<LiveBlock>, from: nat, h: nat) {
    from <= h <= |chain| &&
    if ws.fullReplace then
      var t := SavedAt(ws, chain, h);
      HeadAt(origin, chain, t) == Some(Pipeline.HeadOf(ws)) && Saves(ws.delta, RunRange(m, chain, from, t))
    else h < |chain| && Pipeline.HeadOf(ws) == chain[h].head && Collects(ws.delta, RunRange(m, chain, from, h), chain[h])
  }

  /** The block up to which sets are queued by the first n sets of the log. */
  function Height(log: seq<WriteSet>, from: nat, n: nat): (h: nat)
    requires n <= |log|
    ensures from <= h
  {
    if n == 0 then from else Height(log, from, n - 1) + if log[n - 1].fullReplace then 0 else 1
  }

  /** The block the tables are at after the first n sets. */
  function Reached(log: seq<WriteSet>, chain: seq<LiveBlock>, from: nat, n: nat): (r: nat)
    requires n <= |log|
    ensures from <= r
  {
    if n == 0 then from
    else if log[n - 1].fullReplace then SavedAt(log[n - 1], chain, Height(log, from, n - 1))
    else Height(log, from, n)
  }

  ghost predicate FitsHere(log: seq<WriteSet>, origin: Option<Head>, m: Mem, chain: seq<LiveBlock>, from: nat, n: nat)
    requires n < |log|
  {
    SetFits(log[n], origin, m, chain, from, Height(log, from, n))
  }

  /** The first n sets are those of the blocks in order, with full sets among them. */
  ghost predicate LogFits(log: seq<WriteSet>, origin: Option<Head>, m: Mem, chain: seq<LiveBlock>, from: nat, n: nat)
    requires n <= |log|
  {
    if n == 0 then from <= |chain|
    else LogFits(log, origin, m, chain, from, n - 1) && FitsHere(log, origin, m, chain, from, n - 1)
  }

  // ---- The fold of the log mirrors memory ----

  lemma SavedMirrors(d: Delta, m: Mem)
    requires Saves(d, m)
    ensures Mirrors(d.store, m)
  {
    var globals :| Exports(d.store, m, globals);
    forall k | InScope(k)
      ensures Get(d.store, k) == Persisted(m, k)
    {
      assert Get(d.store, k) == ExportRow(m, globals, k);
      FittingRow(m, globals, k);
    }
  }

  lemma FittingRow(m: Mem, globals: Rows, k: RowKey)
    requires AllFit(m) && InScope(k)
    ensures ExportRow(m, globals, k) == Persisted(m, k)
  {
    match k {
      case LevelKey(spot, side, price) => assert BookAt(m.books, spot).Size(side, AsU64(price)) < TWO_63;
      case HoldingKey(vault, spot) => assert HoldingAt(m.holdings, vault, spot) < TWO_63;
      case _ =>
    }
  }

  lemma {:induction false} CollectedMirrors(rows: Rows, d: Delta, m: Mem, b: LiveBlock)
    requires Collects(d, m, b) && Mirrors(rows, m)
    ensures Mirrors(d.Apply(rows), RunBlock(m, b.head.blockNum, b.events))
  {
    var c, schedule, order :| CollectedBy(d, m, b, c, schedule, order);
    assert EMPTY_DELTA.Apply(rows) == rows;
    ParallelIsBlockOrder(rows, EMPTY_DELTA, c, schedule, order, b.head.blockNum, b.events);
  }

  /** A block's set changes nothing in tables that have reached its block already. */
  lemma {:induction false} CollectedAgain(rows: Rows, d: Delta, m: Mem, b: LiveBlock)
    requires Collects(d, m, b) && Mirrors(rows, RunBlock(m, b.head.blockNum, b.events))
    ensures Mirrors(d.Apply(rows), RunBlock(m, b.head.blockNum, b.events))
  {
    CollectedMirrors(MirrorOf(m), d, m, b);
    MirrorsAgain(rows, MirrorOf(m), d, RunBlock(m, b.head.blockNum, b.events));
  }

  lemma MirrorsAgain(rows: Rows, other: Rows, d: Delta, m: Mem)
    requires Mirrors(rows, m) && Mirrors(d.Apply(other), m)
    ensures Mirrors(d.Apply(rows), m)
  {
    forall k | InScope(k)
      ensures Get(d.Apply(rows), k) == Persisted(m, k)
    {
      assert Get(d.Apply(other), k) == Persisted(m, k);
    }
  }

  /** A full set leads from any tables to memory, a block's set from memory before it or after it. */
  lemma SetMirrors(db: Db, ws: WriteSet, origin: Option<Head>, m: Mem, chain: seq<LiveBlock>, from: nat, h: nat, r: nat)
    requires SetFits(ws, origin, m, chain, from, h) && (r == h || r == h + 1) && r <= |chain|
    requires !ws.fullReplace ==> Mirrors(db.rows, RunRange(m, chain, from, r))
    ensures var t := if ws.fullReplace then SavedAt(ws, chain, h) else h + 1;
            t <= |chain| && Mirrors(ApplyWriteSet(ws, db).rows, RunRange(m, chain, from, t))
  {
    if ws.fullReplace {
      FullReplaceIsExact(db.rows.Keys, ws, db);
      SavedMirrors(ws.delta, RunRange(m, chain, from, SavedAt(ws, chain, h)));
      assert ApplyWriteSet(ws, db).rows == ws.delta.store;
    } else {
      if r == h {
        CollectedMirrors(db.rows, ws.delta, RunRange(m, chain, from, h), chain[h]);
      } else {
        CollectedAgain(db.rows, ws.delta, RunRange(m, chain, from, h), chain[h]);
      }
      assert db.rows - {} == db.rows;
    }
  }

  ghost predicate ReachedInRange(log: seq<WriteSet>, chain: seq<LiveBlock>, from: nat, n: nat)
    requires n <= |log|
  {
    var h, r := Height(log, from, n), Reached(log, chain, from, n);
    h <= |chain| && r <= |chain| && (r == h || r == h + 1)
  }

  /** The first n sets lead from tables that mirror memory to tables that mirror it at the block reached. */
  ghost predicate InStep(db: Db, log: seq<WriteSet>, m: Mem, chain: seq<LiveBlock>, from: nat, n: nat)
    requires n <= |log|
  {
    ReachedInRange(log, chain, from, n) && Mirrors(Pipeline.Fold(db, log[..n]).rows, RunRange(m, chain, from, Reached(log, chain, from, n)))
  }

  lemma StepMirrors(db: Db, log: seq<WriteSet>, origin: Option<Head>, m: Mem, chain: seq<LiveBlock>, from: nat, n: nat)
    requires n < |log| && FitsHere(log, origin, m, chain, from, n) && InStep(db, log, m, chain, from, n)
    ensures InStep(db, log, m, chain, from, n + 1)
  {
    SetMirrors(Pipeline.Fold(db, log[..n]), log[n], origin, m, chain, from, Height(log, from, n), Reached(log, chain, from, n));
    Pipeline.FoldAppend(db, log, n);
  }

  lemma StartMirrors(db: Db, log: seq<WriteSet>, m: Mem, chain: seq<LiveBlock>, from: nat)
    requires from <= |chain| && Mirrors(db.rows, m)
    ensures InStep(db, log, m, chain, from, 0)
  {
    assert log[..0] == [];
  }

  lemma {:induction false} NextMirrors(db: Db, log: seq<WriteSet>, origin: Option<Head>, m: Mem, chain: seq<LiveBlock>, from: nat, n: nat)
    requires 0 < n <= |log| && LogFits(log, origin, m, chain, from, n) && InStep(db, log, m, chain, from, n - 1)
    ensures InStep(db, log, m, chain, from, n)
  {
    StepMirrors(db, log, origin, m, chain, from, n - 1);
  }

  /** So it is after any number of sets. */
  lemma {:induction false} FoldMirrors(db: Db, log: seq<WriteSet>, origin: Option<Head>, m: Mem, chain: seq<LiveBlock>, from: nat, n: nat)
    requires n <= |log| && LogFits(log, origin, m, chain, from, n) && Mirrors(db.rows, m)
    ensures InStep(db, log, m, chain, from, n)
  {
    if n == 0 {
      StartMirrors(db, log, m, chain, from);
    } else {
      FoldMirrors(db, log, origin, m, chain, from, n - 1);
      NextMirrors(db, log, origin, m, chain, from, n);
    }
  }

  // ---- Tables that did not mirror memory at the start ----

  /** A row that one of the first n sets names or replaces. */
  ghost predicate Repaired(log: seq<WriteSet>, n: nat, k: RowKey)
    requires n <= |log|
  {
    exists i :: 0 <= i < n && (log[i].fullReplace || k in log[i].delta.Keys())
  }

  lemma SameAfterSet(ws: WriteSet, db: Db, other: Db, k: RowKey)
    ensures Get(ApplyWriteSet(ws, db).rows, k) == Get(ApplyWriteSet(ws, other).rows, k)
            <==> ws.fullReplace || k in ws.delta.Keys() || Get(db.rows, k) == Get(other.rows, k)
  {
  }

  /** Two stores that take the same sets end alike at a row if and only if they began so or it was repaired. */
  lemma {:induction false} SameAfterSetsIff(db: Db, other: Db, log: seq<WriteSet>, n: nat, k: RowKey)
    requires n <= |log|
    ensures Get(Pipeline.Fold(db, log[..n]).rows, k) == Get(Pipeline.Fold(other, log[..n]).rows, k)
            <==> Repaired(log, n, k) || Get(db.rows, k) == Get(other.rows, k)
  {
    if n > 0 {
      SameAfterSetsIff(db, other, log, n - 1, k);
      Pipeline.FoldAppend(db, log, n - 1);
      Pipeline.FoldAppend(other, log, n - 1);
      SameAfterSet(log[n - 1], Pipeline.Fold(db, log[..n - 1]), Pipeline.Fold(other, log[..n - 1]), k);
      RepairedNext(log, n - 1, k);
    } else {
      assert log[..0] == [];
    }
  }

  lemma RepairedNext(log: seq<WriteSet>, n: nat, k: RowKey)
    requires n < |log|
    ensures Repaired(log, n + 1, k) <==> Repaired(log, n, k) || log[n].fullReplace || k in log[n].delta.Keys()
  {
    if Repaired(log, n, k) {
      var i :| 0 <= i < n && (log[i].fullReplace || k in log[i].delta.Keys());
      assert Repaired(log, n + 1, k);
    }
  }

  /** Every row in which the tables differed from memory has been repaired. */
  ghost predicate AllRepaired(rows: Rows, m: Mem, log: seq<WriteSet>, n: nat)
    requires n <= |log|
  {
    forall k :: InScope(k) && Get(rows, k) != Persisted(m, k) ==> Repaired(log, n, k)
  }

  /**
   Whatever the tables held when the first set was written, they mirror memory after n sets, if and only if
   every row that differed from memory is named by one of them, or one of them is a full set.
   */
  lemma {:induction false} FoldMirrorsIff(db: Db, log: seq<WriteSet>, origin: Option<Head>, m: Mem, chain: seq<LiveBlock>, from: nat, n: nat)
    requires n <= |log| && LogFits(log, origin, m, chain, from, n)
    ensures ReachedInRange(log, chain, from, n)
    ensures Mirrors(Pipeline.Fold(db, log[..n]).rows, RunRange(m, chain, from, Reached(log, chain, from, n)))
            <==> AllRepaired(db.rows, m, log, n)
  {
    var good := Db(MirrorOf(m), db.head);
    FoldMirrors(good, log, origin, m, chain, from, n);
    var rows, expected := Pipeline.Fold(db, log[..n]).rows, Pipeline.Fold(good, log[..n]).rows;
    forall k | InScope(k)
      ensures Get(rows, k) == Get(expected, k) <==> Repaired(log, n, k) || Get(db.rows, k) == Persisted(m, k)
    {
      SameAfterSetsIff(db, good, log, n, k);
    }
    SameMirror(rows, expected, RunRange(m, chain, from, Reached(log, chain, from, n)));
  }

  lemma SameMirror(rows: Rows, expected: Rows, m: Mem)
    requires Mirrors(expected, m)
    ensures Mirrors(rows, m) <==> forall k :: InScope(k) ==> Get(rows, k) == Get(expected, k)
  {
  }

  // ---- The head of the tables ----

  lemma SetHead(db: Db, ws: WriteSet, origin: Option<Head>, m: Mem, chain: seq<LiveBlock>, from: nat, h: nat)
    requires SetFits(ws, origin, m, chain, from, h)
    ensures var t := if ws.fullReplace then SavedAt(ws, chain, h) else h + 1;
            t <= |chain| && ApplyWriteSet(ws, db).head == HeadAt(origin, chain, t)
  {
  }

  lemma {:induction false} LastSetHead(log: seq<WriteSet>, origin: Option<Head>, m: Mem, chain: seq<LiveBlock>, from: nat, db: Db, n: nat)
    requires 0 < n <= |log| && LogFits(log, origin, m, chain, from, n)
    ensures Reached(log, chain, from, n) <= |chain|
    ensures ApplyWriteSet(log[n - 1], db).head == HeadAt(origin, chain, Reached(log, chain, from, n))
  {
    SetHead(db, log[n - 1], origin, m, chain, from, Height(log, from, n - 1));
  }

  /** Once a set is written, the head of the tables is the block reached. */
  lemma {:induction false} LogHead(log: seq<WriteSet>, origin: Option<Head>, m: Mem, chain: seq<LiveBlock>, from: nat, db: Db, n: nat)
    requires 0 < n <= |log| && LogFits(log, origin, m, chain, from, n)
    ensures Reached(log, chain, from, n) <= |chain|
    ensures Pipeline.Fold(db, log[..n]).head == HeadAt(origin, chain, Reached(log, chain, from, n))
  {
    LastSetHead(log, origin, m, chain, from, Pipeline.Fold(db, log[..n - 1]), n);
    Pipeline.FoldAppend(db, log, n - 1);
  }

  /** What n sets make of any tables: the head they lead to, and when the rows are memory's. */
  ghost predicate Leads(db: Db, log: seq<WriteSet>, origin: Option<Head>, m: Mem, chain: seq<LiveBlock>, from: nat, n: nat)
    requires n <= |log|
  {
    var r, after := Reached(log, chain, from, n), Pipeline.Fold(db, log[..n]);
    && r <= |chain| && after.head == HeadAt(origin, chain, r)
    && (Mirrors(after.rows, RunRange(m, chain, from, r)) <==> AllRepaired(db.rows, m, log, n))
  }

  lemma {:induction false} SetsLead(db: Db, log: seq<WriteSet>, origin: Option<Head>, m: Mem, chain: seq<LiveBlock>, from: nat, n: nat)
    requires 0 < n <= |log| && LogFits(log, origin, m, chain, from, n)
    ensures Leads(db, log, origin, m, chain, from, n)
  {
    LogHead(log, origin, m, chain, from, db, n);
    FoldMirrorsIff(db, log, origin, m, chain, from, n);
  }

  // ---- Restored memory agrees with the memory that was saved ----

  ghost predicate AllHydrated(m: Mem) {
    forall spot :: spot in m.books ==> m.books[spot].hydrated
  }

  lemma FitLevelsAll(levels: Levels)
    requires forall p :: p in levels ==> Fits(levels[p])
    ensures FitLevels(levels) == levels
  {
  }

  lemma RestoredBookIsBare(b: Book)
    requires b.hydrated && b.NoEmptyLevel() && forall side, p :: b.Size(side, p) < TWO_63
    ensures Bare(RestoredBook(b)) == Bare(b)
  {
    assert forall p :: p in b.bids ==> b.On(Buy)[p] == b.bids[p] && b.Size(Buy, p) == b.bids[p];
    assert forall p :: p in b.asks ==> b.On(Sell)[p] == b.asks[p] && b.Size(Sell, p) == b.asks[p];
    FitLevelsAll(b.bids);
    FitLevelsAll(b.asks);
  }

  lemma RestoredAlike(m: Mem)
    requires AllFit(m) && AllHydrated(m) && NoEmptyLevels(m)
    ensures Alike(Restored(m, m.vaultOf), m)
  {
    var r := Restored(m, m.vaultOf);
    forall spot
      ensures Bare(BookAt(r.books, spot)) == Bare(BookAt(m.books, spot))
    {
      assert BookAt(m.books, spot).NoEmptyLevel();
      if spot in m.books {
        assert forall side, p :: BookAt(m.books, spot).Size(side, p) < TWO_63;
        RestoredBookIsBare(m.books[spot]);
      }
    }
    forall user
      ensures OrdersOf(r.orders, user) == OrdersOf(m.orders, user)
    {
    }
    forall vault, spot
      ensures HoldingAt(r.holdings, vault, spot) == HoldingAt(m.holdings, vault, spot)
    {
      RestoredAmounts(m, m.vaultOf, spot, Buy, 0, vault);
    }
  }

  lemma AlikeAmounts(m: Mem, n: Mem)
    requires Alike(m, n)
    ensures SameAmounts(m, n)
  {
    forall spot, side: Side, p: u64
      ensures BookAt(m.books, spot).Size(side, p) == BookAt(n.books, spot).Size(side, p)
    {
      assert Bare(BookAt(m.books, spot)) == Bare(BookAt(n.books, spot));
    }
  }

  /**
   A restored memory agrees with the one that was saved if and only if every amount is below 2^63 and every
   book is hydrated: a book that could not be hydrated comes back marked as if it had been.
   */
  lemma RestoredAlikeIff(m: Mem)
    requires NoEmptyLevels(m)
    ensures Alike(Restored(m, m.vaultOf), m) <==> AllFit(m) && AllHydrated(m)
  {
    var r := Restored(m, m.vaultOf);
    if AllFit(m) && AllHydrated(m) {
      RestoredAlike(m);
    }
    if Alike(r, m) {
      AlikeAmounts(r, m);
      AmountsSurviveIff(m, m.vaultOf);
      forall spot | spot in m.books
        ensures m.books[spot].hydrated
      {
        assert Bare(BookAt(r.books, spot)) == Bare(BookAt(m.books, spot));
      }
    }
  }

  /** Markets with a book in memory. */
  function Known(m: Mem): set<Spot> {
    m.books.Keys
  }

  // ---- Recovery ----

  /** Loading tables that mirror a memory and replaying later blocks gives the memory that saw them live. */
  lemma {:induction false} LoadAndReplay(rows: Rows, m: Mem, l: Loaded, later: seq<LiveBlock>, again: seq<LiveBlock>)
    requires Sound(m) && AllFit(m) && AllHydrated(m)
    requires Mirrors(rows, m) && IsLoad(rows, l) && ChainAgain(Known(m), later, again)
    ensures Alike(RunChain(Imported(l, m.vaultOf), again), RunChain(m, later))
  {
    MirrorRoundTrip(rows, m, l, m.vaultOf);
    RestoredAlike(m);
    var r := Imported(l, m.vaultOf);
    assert Alike(m, r);
    ChainAlike(m, r, later, again, Known(m));
  }
}
