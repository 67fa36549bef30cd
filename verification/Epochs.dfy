/**
 The gate around the tables: which writes are followed by a clone, what the clone holds and that the gate is not
 released before it (src/persist/index_state_write.rs), and what a gated read returns (src/persist/shared.rs). And the
 queues of the live stages, which stay bounded (src/indexer/pipeline.rs).
 */
module Epochs {
  import opened Ints
  import opened WriteSets
  import opened Pipeline

  /** The block ends an epoch: it is the last before a multiple of the length. */
  ghost predicate EndsEpoch(n: u64, epochLength: u64) {
    exists k: int :: k > 0 && epochLength > 0 && n + 1 == k * epochLength
  }

  lemma MultipleIff(n: u64, epochLength: u64)
    ensures EndsEpoch(n, epochLength) <==> IsEpochEnd(n, epochLength)
  {
    if epochLength > 0 {
      var k := (n + 1) / epochLength;
      assert n + 1 == k * epochLength + (n + 1) % epochLength;
      if (n + 1) % epochLength == 0 {
        assert k > 0 && n + 1 == k * epochLength;
      }
      if EndsEpoch(n, epochLength) {
        var j: int :| j > 0 && n + 1 == j * epochLength;
        MultipleLeavesNothing(j, epochLength);
      }
    }
  }

  lemma AtLeast(m: int, d: int)
    requires m >= 1 && d > 0
    ensures m * d >= d
  {
  }

  /** What is left of a multiple is itself a multiple, and too small to be another one. */
  lemma MultipleLeavesNothing(j: int, d: int)
    requires d > 0
    ensures (j * d) % d == 0
  {
    var x := j * d;
    var q, r := x / d, x % d;
    assert x == q * d + r;
    var m := j - q;
    assert m * d == j * d - q * d;
    if m >= 1 {
      AtLeast(m, d);
    } else if m <= -1 {
      AtLeast(-m, d);
    }
  }

  /** The gate is still held after the write of block n: nothing was written since, nor read, and no clone made. */
  ghost predicate Holding(s: State, n: u64, wrote: Db, made: map<u64, Db>) {
    s.writer.Wrote? && s.writer.blockNum == n && s.db == wrote && s.clones == made && s.reader.NoReader?
  }

  lemma HoldingKept(s: State, a: Action, epochLength: u64, n: u64, wrote: Db, made: map<u64, Db>)
    requires Holding(s, n, wrote, made) && Enabled(s, a, epochLength) && !a.CloneGated? && !a.ReleaseGate?
    ensures var t := Step(s, a, epochLength); Holding(t, n, wrote, made) && t.writer == s.writer
  {
  }

  /** As long as the write task neither clones nor lets go, nothing it holds the gate for moves. */
  lemma {:induction false} HoldingRun(s: State, more: seq<Action>, epochLength: u64, n: u64, wrote: Db, made: map<u64, Db>)
    requires Holding(s, n, wrote, made) && RunOn(s, more, epochLength).Some?
    requires CloneGated !in more && ReleaseGate !in more
    ensures var t := RunOn(s, more, epochLength).value; Holding(t, n, wrote, made) && t.writer == s.writer
  {
    if more != [] {
      var rest, a := more[..|more| - 1], more[|more| - 1];
      assert more == rest + [a];
      HoldingRun(s, rest, epochLength, n, wrote, made);
      HoldingKept(RunOn(s, rest, epochLength).value, a, epochLength, n, wrote, made);
    }
  }

  /** A gate that is not to be released yet is not released in a run that makes no clone. */
  lemma {:induction false} NotReleased(s: State, more: seq<Action>, epochLength: u64, n: u64, wrote: Db, made: map<u64, Db>)
    requires Holding(s, n, wrote, made) && s.writer.clone && RunOn(s, more, epochLength).Some?
    requires CloneGated !in more
    ensures ReleaseGate !in more
  {
    if more != [] {
      var rest, a := more[..|more| - 1], more[|more| - 1];
      assert more == rest + [a];
      NotReleased(s, rest, epochLength, n, wrote, made);
      HoldingRun(s, rest, epochLength, n, wrote, made);
    }
  }

  /** A gate with no clone to make sees none before it is released. */
  lemma {:induction false} NotCloned(s: State, more: seq<Action>, epochLength: u64, n: u64, wrote: Db, made: map<u64, Db>)
    requires Holding(s, n, wrote, made) && !s.writer.clone && RunOn(s, more, epochLength).Some?
    requires ReleaseGate !in more
    ensures CloneGated !in more
  {
    if more != [] {
      var rest, a := more[..|more| - 1], more[|more| - 1];
      assert more == rest + [a];
      NotCloned(s, rest, epochLength, n, wrote, made);
      HoldingRun(s, rest, epochLength, n, wrote, made);
    }
  }

  /** The batch in the writer's hand, but for what snapshots announced to it. */
  ghost predicate Holds(w: Writer, ws: WriteSet, epoch: bool) {
    w.Waiting? && w.batch.ws == ws && w.epoch == epoch
  }

  lemma WaitingKept(s: State, a: Action, epochLength: u64, ws: WriteSet, epoch: bool)
    requires Holds(s.writer, ws, epoch) && Enabled(s, a, epochLength) && !a.WriteGated?
    ensures Holds(Step(s, a, epochLength).writer, ws, epoch)
  {
  }

  /** A batch once taken waits for its write as it is. */
  lemma {:induction false} WaitingRun(s: State, mid: seq<Action>, epochLength: u64, ws: WriteSet, epoch: bool)
    requires Holds(s.writer, ws, epoch) && RunOn(s, mid, epochLength).Some? && WriteGated !in mid
    ensures Holds(RunOn(s, mid, epochLength).value.writer, ws, epoch)
  {
    if mid != [] {
      var rest, a := mid[..|mid| - 1], mid[|mid| - 1];
      assert mid == rest + [a];
      WaitingRun(s, rest, epochLength, ws, epoch);
      WaitingKept(RunOn(s, rest, epochLength).value, a, epochLength, ws, epoch);
    }
  }

  /** The run from the moment a batch is taken to its write. */
  ghost predicate Writes(s: State, epoch: bool, mid: seq<Action>, epochLength: u64, u: State) {
    && Enabled(s, TakeBatch(epoch), epochLength) && WriteGated !in mid
    && RunOn(Step(s, TakeBatch(epoch), epochLength), mid, epochLength) == Some(u)
    && Enabled(u, WriteGated, epochLength)
  }

  lemma WriteHolds(s: State, epoch: bool, mid: seq<Action>, epochLength: u64, u: State)
    requires Writes(s, epoch, mid, epochLength, u)
    ensures var n, t := s.batches[0].ws.blockNum, Step(u, WriteGated, epochLength);
            Holding(t, n, t.db, u.clones) && (t.writer.clone <==> epoch && EndsEpoch(n, epochLength))
  {
    WaitingRun(Step(s, TakeBatch(epoch), epochLength), mid, epochLength, s.batches[0].ws, epoch);
    MultipleIff(s.batches[0].ws.blockNum, epochLength);
  }

  /**
   A batch taken with epoch clones on, whose block is the last before a multiple of the epoch length: once it is
   written, no run lets go of the gate before the clone, the clone can be made at any moment, and it holds exactly
   the tables that the write left.
   */
  lemma {:induction false} EpochIsCloned(s: State, epoch: bool, mid: seq<Action>, epochLength: u64, u: State, more: seq<Action>)
    requires Writes(s, epoch, mid, epochLength, u)
    requires RunOn(Step(u, WriteGated, epochLength), more, epochLength).Some?
    requires epoch && EndsEpoch(s.batches[0].ws.blockNum, epochLength) && CloneGated !in more
    ensures ReleaseGate !in more
    ensures var n, wrote := s.batches[0].ws.blockNum, Step(u, WriteGated, epochLength).db;
            var v := RunOn(Step(u, WriteGated, epochLength), more, epochLength).value;
            && !Enabled(v, ReleaseGate, epochLength) && Enabled(v, CloneGated, epochLength)
            && v.clones == u.clones && Step(v, CloneGated, epochLength).clones == u.clones[n := wrote]
            && Enabled(Step(v, CloneGated, epochLength), ReleaseGate, epochLength)
  {
    var n, t := s.batches[0].ws.blockNum, Step(u, WriteGated, epochLength);
    WriteHolds(s, epoch, mid, epochLength, u);
    NotReleased(t, more, epochLength, n, t.db, u.clones);
    HoldingRun(t, more, epochLength, n, t.db, u.clones);
  }

  /** Any other batch: no run makes a clone between its write and the release of the gate. */
  lemma {:induction false} OtherWritesMakeNone(s: State, epoch: bool, mid: seq<Action>, epochLength: u64, u: State, more: seq<Action>)
    requires Writes(s, epoch, mid, epochLength, u)
    requires RunOn(Step(u, WriteGated, epochLength), more, epochLength).Some?
    requires !(epoch && EndsEpoch(s.batches[0].ws.blockNum, epochLength)) && ReleaseGate !in more
    ensures CloneGated !in more
    ensures var v := RunOn(Step(u, WriteGated, epochLength), more, epochLength).value;
            && !Enabled(v, CloneGated, epochLength) && Enabled(v, ReleaseGate, epochLength)
            && v.clones == u.clones && Step(v, ReleaseGate, epochLength).clones == u.clones
  {
    var n, t := s.batches[0].ws.blockNum, Step(u, WriteGated, epochLength);
    WriteHolds(s, epoch, mid, epochLength, u);
    NotCloned(t, more, epochLength, n, t.db, u.clones);
    HoldingRun(t, more, epochLength, n, t.db, u.clones);
  }

  ghost predicate AtEpochEnds(s: State, epochLength: u64) {
    && (forall n :: n in s.clones && n !in s.named ==> EndsEpoch(n, epochLength))
    && (s.writer.Wrote? && s.writer.clone ==> EndsEpoch(s.writer.blockNum, epochLength))
  }

  lemma StepAtEpochEnds(s: State, a: Action, epochLength: u64)
    requires AtEpochEnds(s, epochLength) && Enabled(s, a, epochLength)
    ensures AtEpochEnds(Step(s, a, epochLength), epochLength)
  {
    if a.WriteGated? {
      MultipleIff(s.writer.batch.ws.blockNum, epochLength);
    }
  }

  /** The write task clones at epoch ends only. */
  lemma {:induction false} ClonesAtEpochEnds(db: Db, head: Option<Head>, actions: seq<Action>, epochLength: u64)
    requires Run(db, head, actions, epochLength).Some?
    ensures AtEpochEnds(Run(db, head, actions, epochLength).value, epochLength)
  {
    if actions != [] {
      ClonesAtEpochEnds(db, head, actions[..|actions| - 1], epochLength);
      StepAtEpochEnds(Run(db, head, actions[..|actions| - 1], epochLength).value, actions[|actions| - 1], epochLength);
    }
  }

  // ---- Gated reads ----

  /** A read under way sees the tables it was locked on, and has read the families that are not left to read. */
  ghost predicate ReadsOn(s: State, d: Db) {
    s.reader.Reading? && ReaderInStep(s) && s.db == d
  }

  lemma ReadsOnKept(s: State, a: Action, epochLength: u64, d: Db)
    requires ReadsOn(s, d) && Enabled(s, a, epochLength) && !a.FinishRead?
    ensures var t := Step(s, a, epochLength);
            && ReadsOn(t, d) && t.snapshots == s.snapshots
            && t.reader.todo == if a.ReadFamily? then s.reader.todo - {a.f} else s.reader.todo
  {
    StepKeepsReader(s, a, epochLength);
  }

  lemma {:induction false} ReadRun(s: State, more: seq<Action>, epochLength: u64, d: Db)
    requires ReadsOn(s, d) && RunOn(s, more, epochLength).Some? && FinishRead !in more
    ensures var t := RunOn(s, more, epochLength).value;
            && ReadsOn(t, d) && t.snapshots == s.snapshots
            && forall f :: f in t.reader.todo <==> f in s.reader.todo && ReadFamily(f) !in more
  {
    if more != [] {
      var rest, a := more[..|more| - 1], more[|more| - 1];
      assert more == rest + [a];
      ReadRun(s, rest, epochLength, d);
      ReadsOnKept(RunOn(s, rest, epochLength).value, a, epochLength, d);
    }
  }

  lemma LockedRead(s: State, epochLength: u64)
    requires ReaderInStep(s) && Enabled(s, LockReader, epochLength)
    ensures var t := Step(s, LockReader, epochLength);
            ReadsOn(t, s.db) && t.reader.todo == FAMILIES && t.snapshots == s.snapshots
  {
    StepKeepsReader(s, LockReader, epochLength);
  }

  lemma EndedRead(s: State, epochLength: u64, d: Db)
    requires ReadsOn(s, d) && s.reader.todo == {}
    ensures Step(s, FinishRead, epochLength).snapshots == s.snapshots + [d]
  {
    SameMaps(s.reader.got, d.rows);
  }

  /** A read that takes the gate, some run beside it, and the state it has come to. */
  ghost predicate Reads(s: State, more: seq<Action>, epochLength: u64, v: State) {
    && Enabled(s, LockReader, epochLength) && FinishRead !in more
    && RunOn(Step(s, LockReader, epochLength), more, epochLength) == Some(v)
  }

  /** Each family not read yet can be read, and the read can end once all are, with the given tables. */
  ghost predicate ReadTells(v: State, more: seq<Action>, epochLength: u64, d: Db) {
    && (forall f :: f in FAMILIES ==> (Enabled(v, ReadFamily(f), epochLength) <==> ReadFamily(f) !in more))
    && (Enabled(v, FinishRead, epochLength) <==> forall f :: f in FAMILIES ==> ReadFamily(f) in more)
    && (Enabled(v, FinishRead, epochLength) ==> Step(v, FinishRead, epochLength).snapshots == v.snapshots + [d])
  }

  lemma TodoTells(v: State, more: seq<Action>, epochLength: u64, d: Db)
    requires ReadsOn(v, d) && forall f :: f in v.reader.todo <==> f in FAMILIES && ReadFamily(f) !in more
    ensures ReadTells(v, more, epochLength, d)
  {
    assert v.reader.todo == {} <==> forall f :: f in FAMILIES ==> ReadFamily(f) in more;
    if v.reader.todo == {} {
      EndedRead(v, epochLength, d);
    }
  }

  /**
   A gated read: whatever runs beside it, each family not read yet can be read at any moment, the read can end
   exactly when all were read, and what it returns then is the tables as they were when it took the gate.
   */
  lemma GatedReadReturnsTables(db: Db, head: Option<Head>, actions: seq<Action>, epochLength: u64, s: State,
                               more: seq<Action>, v: State)
    requires Run(db, head, actions, epochLength) == Some(s) && Reads(s, more, epochLength, v)
    ensures v.snapshots == s.snapshots && ReadTells(v, more, epochLength, s.db)
  {
    RunKeepsInv(db, head, actions, epochLength);
    LockedRead(s, epochLength);
    ReadRun(Step(s, LockReader, epochLength), more, epochLength, s.db);
    TodoTells(v, more, epochLength, s.db);
  }

  // ---- The queues ----

  ghost predicate Bounded(s: State) {
    |s.raw| <= 64 && |s.prepared| <= 64 && |s.ingress| <= 32 && |s.batches| <= 32
  }

  lemma BoundedKept(s: State, a: Action, epochLength: u64)
    requires Bounded(s) && Enabled(s, a, epochLength)
    ensures Bounded(Step(s, a, epochLength))
  {
  }

  /** A sender waits exactly while the queue before it is full. */
  ghost predicate WaitsOnlyWhenFull(s: State, epochLength: u64) {
    && (forall b :: Enabled(s, Receive(b), epochLength) <==> |s.raw| != 64)
    && (s.raw != [] ==> (Enabled(s, Decode, epochLength) <==> |s.prepared| != 64))
    && (s.applied.Some? ==> (Enabled(s, SendApplied, epochLength) <==> |s.ingress| != 32))
    && (s.forced.Some? ==> (Enabled(s, SendForced, epochLength) <==> |s.ingress| != 32))
    && (s.builder.Building? && s.builder.todo == {} ==> (Enabled(s, FinishBuild, epochLength) <==> |s.batches| != 32))
  }

  /** On every run at most 64 raw and 64 prepared blocks, 32 sets and 32 batches are queued. */
  lemma {:induction false} QueuesBounded(db: Db, head: Option<Head>, actions: seq<Action>, epochLength: u64)
    requires Run(db, head, actions, epochLength).Some?
    ensures var s := Run(db, head, actions, epochLength).value; Bounded(s) && WaitsOnlyWhenFull(s, epochLength)
  {
    if actions != [] {
      var before, a := actions[..|actions| - 1], actions[|actions| - 1];
      QueuesBounded(db, head, before, epochLength);
      BoundedKept(Run(db, head, before, epochLength).value, a, epochLength);
    }
  }
}
