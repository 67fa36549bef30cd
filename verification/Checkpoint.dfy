/**
 Checkpoints beside the live pipeline: `checkpoint_once` (src/indexer/mod.rs) names its clone after the block
 memory is at, and a full replace may be built behind unwritten batches.
 */
module Checkpoint {
  import opened Ints
  import opened WriteSets
  import opened Pipeline

  // ---- What a clone made by a checkpoint holds ----

  predicate IsAt(d: Db, n: u64) {
    d.head.Some? && d.head.value.blockNum == n
  }

  lemma PrefixAt(db: Db, d: Db, log: seq<WriteSet>, j: nat, n: u64)
    requires IsPrefix(db, d, log, j)
    ensures EndsAt(db, log, j, n) <==> IsAt(d, n)
  {
    if j > 0 {
      FoldAppend(db, log, j - 1);
    }
  }

  lemma HeadTells(db: Db, d: Db, log: seq<WriteSet>, j: nat, n: u64)
    requires IsPrefix(db, d, log, j)
    ensures ThroughBlock(db, d, log, n) <==> IsAt(d, n)
  {
    PrefixAt(db, d, log, j, n);
    if ThroughBlock(db, d, log, n) {
      var i: nat :| EndsAt(db, log, i, n) && IsPrefix(db, d, log, i);
      PrefixAt(db, d, log, i, n);
    }
  }

  /**
   The clone of a checkpoint is the fold through the block it is named after, if and only if that is the
   block the tables are at; before the first write that is the block they were at from the start.
   */
  lemma NamedCloneIff(db: Db, head: Option<Head>, actions: seq<Action>, epochLength: u64)
    requires Run(db, head, actions, epochLength).Some? && !Run(db, head, actions, epochLength).value.stale
    requires Enabled(Run(db, head, actions, epochLength).value, CloneNamed, epochLength)
    ensures var s := Run(db, head, actions, epochLength).value;
            var n, t := s.checkpoint.value.blockNum, Step(s, CloneNamed, epochLength);
            n in t.clones && (ThroughBlock(db, t.clones[n], t.log, n) <==> IsAt(s.db, n))
  {
    var s := Run(db, head, actions, epochLength).value;
    RunKeepsInv(db, head, actions, epochLength);
    HeadTells(db, s.db, s.log, s.written, s.checkpoint.value.blockNum);
  }

  /** No operation counted as pending: what is left is at most a set the apply stage has not sent yet. */
  predicate PersistIdle(s: State) {
    InFlight(s) == [] && s.ingress == [] && s.forced.None?
  }

  /** A checkpoint at block h is running, and every set still on its way is stamped with h. */
  ghost predicate OnlyAt(s: State, h: Head) {
    && s.checkpoint == Some(h)
    && (forall b :: b in InFlight(s) ==> HeadOf(b.ws) == h)
    && (forall ws :: ws in s.ingress ==> HeadOf(ws) == h)
    && (s.applied.Some? ==> HeadOf(s.applied.value) == h)
    && (s.forced.Some? ==> HeadOf(s.forced.value) == h)
  }

  lemma OnlyAtKept(s: State, a: Action, epochLength: u64, h: Head)
    requires OnlyAt(s, h) && Enabled(s, a, epochLength) && !a.CloneNamed?
    ensures var t := Step(s, a, epochLength);
            && OnlyAt(t, h)
            && t.db.head == (if t.written > s.written then Some(h) else s.db.head)
            && t.written >= s.written
  {
    var t := Step(s, a, epochLength);
    StepInFlight(s, a, epochLength);
    if a.WriteGated? {
      assert s.writer.batch in InFlight(s);
    }
    forall b | b in InFlight(t)
      ensures HeadOf(b.ws) == h
    {
      if a.SeeFamily? {
        assert InFlight(s)[|Built(s)|] in InFlight(s) && InFlight(s)[|Built(s)|] == BuilderBatch(s.builder)[0];
        var j :| 0 <= j < |InFlight(t)| && InFlight(t)[j] == b;
        assert j < |Built(s)| ==> InFlight(s)[j] == b && b in InFlight(s);
      } else if a.StartBuild? && b == BuilderBatch(t.builder)[0] {
        assert s.ingress[0] in s.ingress;
      } else {
        assert b in InFlight(s);
      }
    }
  }

  lemma {:induction false} OnlyAtRun(s: State, more: seq<Action>, epochLength: u64, h: Head)
    requires OnlyAt(s, h) && CloneNamed !in more && RunOn(s, more, epochLength).Some?
    ensures var t := RunOn(s, more, epochLength).value;
            && OnlyAt(t, h)
            && t.db.head == (if t.written > s.written then Some(h) else s.db.head)
            && t.written >= s.written
  {
    if more != [] {
      var rest, a := more[..|more| - 1], more[|more| - 1];
      assert more == rest + [a];
      OnlyAtRun(s, rest, epochLength, h);
      OnlyAtKept(RunOn(s, rest, epochLength).value, a, epochLength, h);
    }
  }

  /**
   The idle path: when persistence is idle while the checkpoint at h runs, and the stored head is h or some
   set is written afterwards, as the forced one is, then the tables are at h whenever the clone is made.
   */
  lemma {:induction false} IdleCheckpointIsExact(db: Db, head: Option<Head>, actions: seq<Action>, more: seq<Action>, epochLength: u64, h: Head)
    requires Run(db, head, actions, epochLength).Some? && CloneNamed !in more
    requires var s := Run(db, head, actions, epochLength).value;
             && s.checkpoint == Some(h) && PersistIdle(s) && RunOn(s, more, epochLength).Some?
             && (s.db.head == Some(h) || RunOn(s, more, epochLength).value.written > s.written)
    ensures var t := RunOn(Run(db, head, actions, epochLength).value, more, epochLength).value;
            t.checkpoint == Some(h) && t.db.head == Some(h)
  {
    var s := Run(db, head, actions, epochLength).value;
    RunKeepsInv(db, head, actions, epochLength);
    assert OnlyAt(s, h);
    OnlyAtRun(s, more, epochLength, h);
  }

  // ---- Runs that show the failures ----

  lemma RunAppend(db: Db, head: Option<Head>, actions: seq<Action>, a: Action, epochLength: u64)
    requires Run(db, head, actions, epochLength).Some? && Enabled(Run(db, head, actions, epochLength).value, a, epochLength)
    ensures Run(db, head, actions + [a], epochLength) == Some(Step(Run(db, head, actions, epochLength).value, a, epochLength))
  {
    assert (actions + [a])[..|actions + [a]| - 1] == actions;
  }

  const EMPTY_DB := Db(map[], None)

  lemma RunNext(db: Db, head: Option<Head>, actions: seq<Action>, s: State, a: Action) returns (more: seq<Action>, t: State)
    requires Run(db, head, actions, 1000) == Some(s) && Enabled(s, a, 1000)
    ensures more == actions + [a] && t == Step(s, a, 1000) && Run(db, head, more, 1000) == Some(t)
  {
    RunAppend(db, head, actions, a, 1000);
    more, t := actions + [a], Step(s, a, 1000);
  }

  /** The batch of a first block's write set is built and waits to be written. */
  function OneBatchState(db: Db, head: Option<Head>, ws: WriteSet): State {
    Initial(db, head).(received := [HeadOf(ws)], log := [ws], batches := [Batch(ws, {}, {})], memory := Some(HeadOf(ws)))
  }

  lemma BuildOneBatch(db: Db, head: Option<Head>, ws: WriteSet) returns (actions: seq<Action>)
    requires !ws.fullReplace
    ensures Run(db, head, actions, 1000) == Some(OneBatchState(db, head, ws))
  {
    actions := [];
    var s := Initial(db, head);
    actions, s := RunNext(db, head, actions, s, Receive(HeadOf(ws)));
    actions, s := RunNext(db, head, actions, s, Decode);
    assert s.raw == [] && s.prepared == [HeadOf(ws)];
    actions, s := RunNext(db, head, actions, s, Apply(ws));
    actions, s := RunNext(db, head, actions, s, SendApplied);
    assert InFlight(s) == [] && StoredBy([]) == {};
    actions, s := RunNext(db, head, actions, s, StartBuild);
    actions, s := RunNext(db, head, actions, s, FinishBuild);
    assert s == OneBatchState(db, head, ws);
  }

  /** A first block is written, a second one is applied and its checkpoint has started. */
  function TwoBlockState(ws: WriteSet, next: WriteSet): State {
    Initial(EMPTY_DB, None).(
    received := [HeadOf(ws), HeadOf(next)], log := [ws], db := BuiltEffect({}, ws, EMPTY_DB), written := 1,
    applied := Some(next), memory := Some(HeadOf(next)), checkpoint := Some(HeadOf(next)))
  }

  function OneBlockState(db: Db, head: Option<Head>, ws: WriteSet): State {
    Initial(db, head).(received := [HeadOf(ws)], log := [ws], db := BuiltEffect({}, ws, db), written := 1,
                       memory := Some(HeadOf(ws)))
  }

  lemma WriteOne(db: Db, head: Option<Head>, ws: WriteSet) returns (actions: seq<Action>)
    requires !ws.fullReplace
    ensures Run(db, head, actions, 1000) == Some(OneBlockState(db, head, ws))
  {
    actions := BuildOneBatch(db, head, ws);
    var s := OneBatchState(db, head, ws);
    actions, s := RunNext(db, head, actions, s, TakeBatch(false));
    actions, s := RunNext(db, head, actions, s, WriteGated);
    actions, s := RunNext(db, head, actions, s, ReleaseGate);
    assert s == OneBlockState(db, head, ws);
  }

  lemma WriteOneApplyNext(ws: WriteSet, next: WriteSet) returns (actions: seq<Action>)
    requires !ws.fullReplace && !next.fullReplace
    ensures Run(EMPTY_DB, None, actions, 1000) == Some(TwoBlockState(ws, next))
  {
    actions := WriteOne(EMPTY_DB, None, ws);
    var s := OneBlockState(EMPTY_DB, None, ws);
    actions, s := RunNext(EMPTY_DB, None, actions, s, Receive(HeadOf(next)));
    actions, s := RunNext(EMPTY_DB, None, actions, s, Decode);
    assert s.raw == [] && s.prepared == [HeadOf(next)];
    actions, s := RunNext(EMPTY_DB, None, actions, s, Apply(next));
    actions, s := RunNext(EMPTY_DB, None, actions, s, StartCheckpoint);
    assert s == TwoBlockState(ws, next);
  }

  /**
   A checkpoint that clones while the set of its block is still unwritten: the clone named after that block
   is the fold through the block before, for every pair of sets of different blocks.
   */
  lemma NamedCloneBehind(ws: WriteSet, next: WriteSet) returns (actions: seq<Action>)
    requires !ws.fullReplace && !next.fullReplace && ws.blockNum != next.blockNum
    ensures var r, n := Run(EMPTY_DB, None, actions, 1000), next.blockNum;
            && r.Some? && !r.value.stale && n in r.value.clones
            && ThroughBlock(EMPTY_DB, r.value.clones[n], r.value.log, ws.blockNum)
            && !ThroughBlock(EMPTY_DB, r.value.clones[n], r.value.log, n)
  {
    actions := WriteOneApplyNext(ws, next);
    var s := TwoBlockState(ws, next);
    actions, s := RunNext(EMPTY_DB, None, actions, s, CloneNamed);
    FoldAppend(EMPTY_DB, [ws], 0);
    assert [ws][..1] == [ws] && [ws][..0] == [];
    assert s.clones[next.blockNum] == BuiltEffect({}, ws, EMPTY_DB) == ApplyWriteSet(ws, EMPTY_DB);
    HeadTells(EMPTY_DB, s.clones[next.blockNum], s.log, 1, next.blockNum);
    HeadTells(EMPTY_DB, s.clones[next.blockNum], s.log, 1, ws.blockNum);
  }

  /** One built batch stores a row and waits; the build of a full replace has been started behind it. */
  function StaleState(ws: WriteSet, full: WriteSet, todo: set<Family>): State {
    OneBatchState(EMPTY_DB, None, ws).(log := [ws, full], builder := Building(full, {}, ws.delta.store.Keys, todo),
                       memory := Some(HeadOf(full)))
  }

  lemma StoredByOne(b: Batch)
    ensures StoredBy([b]) == b.ws.delta.store.Keys
  {
    assert [b][0] == b;
  }

  lemma BuildBehindBatch(ws: WriteSet, full: WriteSet) returns (actions: seq<Action>)
    requires !ws.fullReplace && full.fullReplace
    ensures Run(EMPTY_DB, None, actions, 1000) == Some(StaleState(ws, full, FAMILIES))
  {
    actions := BuildOneBatch(EMPTY_DB, None, ws);
    var s := OneBatchState(EMPTY_DB, None, ws);
    actions, s := RunNext(EMPTY_DB, None, actions, s, Force(full));
    actions, s := RunNext(EMPTY_DB, None, actions, s, SendForced);
    assert InFlight(s) == [Batch(ws, {}, {})];
    StoredByOne(Batch(ws, {}, {}));
    actions, s := RunNext(EMPTY_DB, None, actions, s, StartBuild);
    assert s == StaleState(ws, full, FAMILIES);
  }

  lemma {:induction false} SeeAll(actions: seq<Action>, ws: WriteSet, full: WriteSet, todo: set<Family>)
    returns (more: seq<Action>)
    requires Run(EMPTY_DB, None, actions, 1000) == Some(StaleState(ws, full, todo))
    ensures Run(EMPTY_DB, None, more, 1000) == Some(StaleState(ws, full, {}))
    decreases |todo|
  {
    if todo == {} {
      more := actions;
    } else {
      var f :| f in todo;
      var s: State;
      more, s := RunNext(EMPTY_DB, None, actions, StaleState(ws, full, todo), SeeFamily(f));
      assert {} + RowsIn(EMPTY_DB.rows, f).Keys == {};
      more := SeeAll(more, ws, full, todo - {f});
    }
  }

  lemma WriteBoth(actions: seq<Action>, ws: WriteSet, full: WriteSet) returns (more: seq<Action>, s: State)
    requires Run(EMPTY_DB, None, actions, 1000) == Some(StaleState(ws, full, {}))
    ensures Run(EMPTY_DB, None, more, 1000) == Some(s) && Drained(s) && s.log == [ws, full]
    ensures s.db == BuiltEffect({}, full, BuiltEffect({}, ws, EMPTY_DB))
  {
    more, s := RunNext(EMPTY_DB, None, actions, StaleState(ws, full, {}), FinishBuild);
    more, s := RunNext(EMPTY_DB, None, more, s, TakeBatch(false));
    more, s := RunNext(EMPTY_DB, None, more, s, WriteGated);
    more, s := RunNext(EMPTY_DB, None, more, s, ReleaseGate);
    more, s := RunNext(EMPTY_DB, None, more, s, TakeBatch(false));
    more, s := RunNext(EMPTY_DB, None, more, s, WriteGated);
  }

  /**
   A full replace built while a batch ahead of it is unwritten: the row that batch stores is in the
   tables at the end, although the fold of the two write sets does not have it.
   */
  lemma StaleFullReplace(ws: WriteSet, full: WriteSet, k: RowKey) returns (actions: seq<Action>)
    requires !ws.fullReplace && full.fullReplace
    requires k in ws.delta.store && k !in full.delta.Keys()
    ensures var r := Run(EMPTY_DB, None, actions, 1000);
            && r.Some? && Drained(r.value) && r.value.log == [ws, full]
            && k in r.value.db.rows && k !in Fold(EMPTY_DB, r.value.log).rows
  {
    actions := BuildBehindBatch(ws, full);
    actions := SeeAll(actions, ws, full, FAMILIES);
    var s: State;
    actions, s := WriteBoth(actions, ws, full);
    FoldAppend(EMPTY_DB, [ws, full], 1);
    assert [ws, full][..2] == [ws, full];
    FullReplaceIsExact(Fold(EMPTY_DB, [ws]).rows.Keys, full, Fold(EMPTY_DB, [ws]));
  }

  // ---- A peer's snapshot, written past the queue ----

  /** An older set that was still queued is written over the snapshot: the tables fall back to its block. */
  lemma SnapshotOvertaken(ws: WriteSet, snapshot: WriteSet) returns (actions: seq<Action>)
    requires !ws.fullReplace && snapshot.fullReplace
    ensures var r := Run(EMPTY_DB, None, actions, 1000);
            && r.Some? && r.value.memory == Some(HeadOf(snapshot))
            && r.value.db == ApplyWriteSet(ws, ApplyWriteSet(snapshot, EMPTY_DB))
            && IsAt(r.value.db, ws.blockNum)
  {
    actions := BuildOneBatch(EMPTY_DB, None, ws);
    var s := OneBatchState(EMPTY_DB, None, ws);
    actions, s := RunNext(EMPTY_DB, None, actions, s, WriteSnapshot(snapshot));
    actions, s := RunNext(EMPTY_DB, None, actions, s, TakeBatch(false));
    actions, s := RunNext(EMPTY_DB, None, actions, s, WriteGated);
  }

  /**
   The forced write that follows repairs the tables, whatever was written before it, if and only if it has
   seen or names every row then present; a build that starts with nothing in flight has.
   */
  lemma ForcedWriteRepairsIff(s: State, epochLength: u64)
    requires Enabled(s, WriteGated, epochLength) && s.writer.batch.ws.fullReplace
    requires s.writer.batch.ws.delta.del == {}
    ensures var ws := s.writer.batch.ws;
            Step(s, WriteGated, epochLength).db == Db(ws.delta.store, Some(HeadOf(ws))) <==> Reaches(s.writer.batch, s.db)
    ensures BatchesCovered(s) && s.writer.batch.ahead == {} ==> Reaches(s.writer.batch, s.db)
  {
    var b := s.writer.batch;
    FullReplaceIsExact(b.seen, b.ws, s.db);
    if BatchesCovered(s) && b.ahead == {} {
      WholeReaches(s, epochLength);
    }
  }
}
