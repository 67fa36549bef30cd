/**
 From received blocks to durable tables: the live stages (src/indexer/pipeline.rs), the index writer
 (src/persist/index_state_write.rs), gated reads (src/persist/shared.rs) and epoch clones
 (src/persist/checkpoint.rs) as one step relation over bounded queues.
 */
module Pipeline {
  import opened Ints
  import opened WriteSets

  const RAW_CAPACITY: nat := 64
  const PREPARED_CAPACITY: nat := 64
  const INGRESS_CAPACITY: nat := 32
  const BATCH_CAPACITY: nat := 32

  /** True for heights 999, 1999, ... when the epoch length is 1000. */
  predicate IsEpochEnd(blockNum: u64, epochLength: u64) {
    epochLength > 0 && (blockNum + 1) % epochLength == 0
  }

  // ---- State ----

  /**
   A built batch: the set it came from, the keys seen while it was built, and the keys stored by the
   batches that were still unwritten when its build began or, since then, by a snapshot.
   */
  datatype Batch = Batch(ws: WriteSet, seen: set<RowKey>, ahead: set<RowKey>)

  datatype Builder = NoBuild | Building(ws: WriteSet, seen: set<RowKey>, ahead: set<RowKey>, todo: set<Family>)

  /** The writer: nothing in hand, waiting for the gate, or holding it after the write. */
  datatype Writer = NoBatch | Waiting(batch: Batch, epoch: bool) | Wrote(blockNum: u64, clone: bool)

  /** A gated reader: what it has read so far and the families still to read. */
  datatype Reader = NoReader | Reading(head: Option<Head>, got: Rows, todo: set<Family>)

  datatype State = State(
    received: seq<Head>,           // history: blocks in the order of arrival
    raw: seq<Head>, prepared: seq<Head>,
    applied: Option<WriteSet>,     // collected by the apply stage, not yet sent
    forced: Option<WriteSet>,      // collected by a forced full write, not yet sent
    log: seq<WriteSet>,            // history: write sets in the order of writing, those written first
    ingress: seq<WriteSet>, builder: Builder, batches: seq<Batch>, writer: Writer, reader: Reader,
    db: Db,
    written: nat,                  // history: number of sets of the log that were written
    stale: bool,                   // history: some full replace left a row it should have removed
    memory: Option<Head>,          // the block memory is at
    checkpoint: Option<Head>,      // the block a checkpoint was started at; it keeps the apply stage out
    clones: map<u64, Db>,
    named: set<u64>,               // history: clones made by a checkpoint
    snapshots: seq<Db>)

  /** The stages start with the tables as they are and memory at the block it was restored to, if any. */
  function Initial(db: Db, head: Option<Head>): State {
    State([], [], [], None, None, [], [], NoBuild, [], NoBatch, NoReader, db, 0, false, head, None, map[], {}, [])
  }

  datatype Action =
    | Receive(block: Head) | Decode | Apply(ws: WriteSet) | Force(ws: WriteSet) | SendApplied | SendForced
    | StartBuild | SeeFamily(f: Family) | FinishBuild
    | TakeBatch(epoch: bool) | WriteGated | CloneGated | ReleaseGate
    | LockReader | ReadFamily(f: Family) | FinishRead
    | StartCheckpoint | CloneNamed
    | WriteSnapshot(ws: WriteSet)

  predicate GateFree(s: State) {
    !s.writer.Wrote? && s.reader.NoReader?
  }

  function BuilderBatch(b: Builder): seq<Batch> {
    if b.Building? then [Batch(b.ws, b.seen, b.ahead)] else []
  }

  function WriterBatch(w: Writer): seq<Batch> {
    if w.Waiting? then [w.batch] else []
  }

  /** Batches built and not yet written, oldest first. */
  function Built(s: State): seq<Batch> {
    WriterBatch(s.writer) + s.batches
  }

  function InFlight(s: State): seq<Batch> {
    Built(s) + BuilderBatch(s.builder)
  }

  function StoredBy(batches: seq<Batch>): set<RowKey> {
    set b, k | b in batches && k in b.ws.delta.store :: k
  }

  /** A full replace removes, or names, every row present when it is written. */
  predicate Reaches(b: Batch, db: Db) {
    b.ws.fullReplace ==> db.rows.Keys <= b.seen + b.ws.delta.Keys()
  }

  /** A full replace reaches every row that a batch ahead of it was still to store. */
  predicate Whole(b: Batch) {
    b.ws.fullReplace ==> b.ahead <= b.seen + b.ws.delta.Keys()
  }

  /** A snapshot stores rows that a build may have missed. */
  function Announce(b: Batch, keys: set<RowKey>): Batch {
    b.(ahead := b.ahead + keys)
  }

  function AnnounceAll(batches: seq<Batch>, keys: set<RowKey>): seq<Batch> {
    seq(|batches|, i requires 0 <= i < |batches| => Announce(batches[i], keys))
  }

  function HeadOf(ws: WriteSet): Head {
    Head(ws.blockNum, ws.digest)
  }

  /**
   The apply gate is held while a block is applied, and by a checkpoint from the reading of the head to its
   clone; a full write is collected under it, stamped with the head. A peer's snapshot is taken under it too,
   and written at once, past the queue.
   */
  predicate Enabled(s: State, a: Action, epochLength: u64) {
    match a
    case Receive(_) => |s.raw| < RAW_CAPACITY
    case Decode => s.raw != [] && |s.prepared| < PREPARED_CAPACITY
    case Apply(ws) => s.prepared != [] && s.applied.None? && !ws.fullReplace && HeadOf(ws) == s.prepared[0]
                      && s.forced.None? && s.checkpoint.None?
    case Force(ws) => s.forced.None? && ws.fullReplace
                      && (if s.checkpoint.Some? then s.checkpoint == Some(HeadOf(ws)) else s.applied.None?)
    case SendApplied => s.applied.Some? && |s.ingress| < INGRESS_CAPACITY
    case SendForced => s.forced.Some? && |s.ingress| < INGRESS_CAPACITY
    case StartBuild => s.builder.NoBuild? && s.ingress != []
    case SeeFamily(f) => s.builder.Building? && f in s.builder.todo
    case FinishBuild => s.builder.Building? && s.builder.todo == {} && |s.batches| < BATCH_CAPACITY
    case TakeBatch(_) => s.writer.NoBatch? && s.batches != []
    case WriteGated => s.writer.Waiting? && GateFree(s)
    case CloneGated => s.writer.Wrote? && s.writer.clone
    case ReleaseGate => s.writer.Wrote? && !s.writer.clone
    case LockReader => GateFree(s)
    case ReadFamily(f) => s.reader.Reading? && f in s.reader.todo
    case FinishRead => s.reader.Reading? && s.reader.todo == {}
    case StartCheckpoint => s.checkpoint.None? && s.forced.None? && s.memory.Some?
    case CloneNamed => s.checkpoint.Some? && s.forced.None? && GateFree(s)
    case WriteSnapshot(ws) => ws.fullReplace && s.applied.None? && s.forced.None? && s.checkpoint.None? && GateFree(s)
  }

  /** The log with a set that is written before those still queued. */
  function WrittenNext(log: seq<WriteSet>, written: nat, ws: WriteSet): seq<WriteSet> {
    if written <= |log| then log[..written] + [ws] + log[written..] else log + [ws]
  }

  function Step(s: State, a: Action, epochLength: u64): State
    requires Enabled(s, a, epochLength)
  {
    match a
    case Receive(b) => s.(received := s.received + [b], raw := s.raw + [b])
    case Decode => s.(raw := s.raw[1..], prepared := s.prepared + [s.raw[0]])
    case Apply(ws) => s.(prepared := s.prepared[1..], applied := Some(ws), memory := Some(HeadOf(ws)))
    case Force(ws) => s.(forced := Some(ws), memory := Some(HeadOf(ws)))
    case SendApplied => s.(applied := None, ingress := s.ingress + [s.applied.value], log := s.log + [s.applied.value])
    case SendForced => s.(forced := None, ingress := s.ingress + [s.forced.value], log := s.log + [s.forced.value])
    case StartBuild =>
      var ws := s.ingress[0];
      s.(ingress := s.ingress[1..],
         builder := Building(ws, {}, StoredBy(InFlight(s)), if ws.fullReplace then FAMILIES else {}))
    case SeeFamily(f) =>
      s.(builder := s.builder.(seen := s.builder.seen + RowsIn(s.db.rows, f).Keys, todo := s.builder.todo - {f}))
    case FinishBuild =>
      var b := Batch(s.builder.ws, s.builder.seen, s.builder.ahead);
      s.(builder := NoBuild, batches := s.batches + [b])
    case TakeBatch(epoch) =>
      s.(batches := s.batches[1..], writer := Waiting(s.batches[0], epoch))
    case WriteGated =>
      var b := s.writer.batch;
      s.(db := BuiltEffect(b.seen, b.ws, s.db), written := s.written + 1, stale := s.stale || !Reaches(b, s.db),
         writer := Wrote(b.ws.blockNum, s.writer.epoch && IsEpochEnd(b.ws.blockNum, epochLength)))
    case CloneGated =>
      s.(clones := s.clones[s.writer.blockNum := s.db], named := s.named - {s.writer.blockNum},
         writer := s.writer.(clone := false))
    case ReleaseGate => s.(writer := NoBatch)
    case LockReader => s.(reader := Reading(s.db.head, map[], FAMILIES))
    case ReadFamily(f) =>
      s.(reader := s.reader.(got := s.reader.got + RowsIn(s.db.rows, f), todo := s.reader.todo - {f}))
    case FinishRead =>
      s.(reader := NoReader, snapshots := s.snapshots + [Db(s.reader.got, s.reader.head)])
    case StartCheckpoint => s.(checkpoint := s.memory)
    case CloneNamed =>
      var n := s.checkpoint.value.blockNum;
      s.(clones := s.clones[n := s.db], named := s.named + {n}, checkpoint := None)
    case WriteSnapshot(ws) =>
      var keys := ws.delta.store.Keys;
      s.(db := ApplyWriteSet(ws, s.db), log := WrittenNext(s.log, s.written, ws), written := s.written + 1,
         memory := Some(HeadOf(ws)), batches := AnnounceAll(s.batches, keys),
         builder := if s.builder.Building? then s.builder.(ahead := s.builder.ahead + keys) else s.builder,
         writer := if s.writer.Waiting? then s.writer.(batch := Announce(s.writer.batch, keys)) else s.writer)
  }

  // ---- The fold of the log ----

  /** The tables after applying the first sets of a log one by one. */
  function Fold(db: Db, log: seq<WriteSet>): Db {
    if log == [] then db else ApplyWriteSet(log[|log| - 1], Fold(db, log[..|log| - 1]))
  }

  function SetsOf(batches: seq<Batch>): seq<WriteSet> {
    seq(|batches|, i requires 0 <= i < |batches| => batches[i].ws)
  }

  /** Blocks whose own write sets are in the log. */
  function BlocksOf(log: seq<WriteSet>): seq<Head> {
    if log == [] then []
    else
      var rest, ws := BlocksOf(log[..|log| - 1]), log[|log| - 1];
      if ws.fullReplace then rest else rest + [HeadOf(ws)]
  }

  lemma {:induction false} BlocksAppend(log: seq<WriteSet>, ws: WriteSet)
    ensures BlocksOf(log + [ws]) == if ws.fullReplace then BlocksOf(log) else BlocksOf(log) + [HeadOf(ws)]
  {
    assert (log + [ws])[..|log + [ws]| - 1] == log;
  }

  lemma {:induction false} BlocksInsert(log: seq<WriteSet>, written: nat, ws: WriteSet)
    requires written <= |log| && ws.fullReplace
    ensures BlocksOf(WrittenNext(log, written, ws)) == BlocksOf(log)
    decreases |log|
  {
    if written == |log| {
      assert WrittenNext(log, written, ws) == log + [ws];
      BlocksAppend(log, ws);
    } else {
      var rest, last := log[..|log| - 1], log[|log| - 1];
      assert log == rest + [last];
      assert WrittenNext(log, written, ws) == WrittenNext(rest, written, ws) + [last];
      BlocksInsert(rest, written, ws);
      BlocksAppend(rest, last);
      BlocksAppend(WrittenNext(rest, written, ws), last);
    }
  }

  // ---- Invariants ----

  function InHand(ws: Option<WriteSet>): seq<Head> {
    if ws.Some? then [HeadOf(ws.value)] else []
  }

  /** Received blocks whose write sets are not in the log, in arrival order. */
  function Upstream(s: State): seq<Head> {
    InHand(s.applied) + (s.prepared + s.raw)
  }

  /** Every received block is in the log, in hand, or waiting, in arrival order. */
  ghost predicate BlocksInOrder(s: State) {
    && BlocksOf(s.log) + Upstream(s) == s.received
    && (s.applied.Some? ==> !s.applied.value.fullReplace)
    && (s.forced.Some? ==> s.forced.value.fullReplace)
  }

  /** The unwritten end of the log is what is in flight followed by what waits at the ingress. */
  ghost predicate LogInOrder(s: State) {
    s.written <= |s.log| && s.log[s.written..] == SetsOf(InFlight(s)) + s.ingress
  }

  /** A row present now was seen by the batch's build, or was stored by a batch or snapshot written before it. */
  ghost predicate Covered(b: Batch, todo: set<Family>, db: Db) {
    b.ws.fullReplace ==> forall k :: k in db.rows && FamilyOf(k) !in todo ==> k in b.seen || k in b.ahead
  }

  ghost predicate BatchesCovered(s: State) {
    && (forall b :: b in Built(s) ==> Covered(b, {}, s.db))
    && (s.builder.Building? ==> Covered(BuilderBatch(s.builder)[0], s.builder.todo, s.db))
  }

  ghost predicate AheadKnown(batches: seq<Batch>) {
    forall i, j, k :: 0 <= i < j < |batches| && k in batches[i].ws.delta.store ==> k in batches[j].ahead
  }

  /** While the gate is held nothing moves under its holder: what a reader has is what the tables hold. */
  ghost predicate ReaderInStep(s: State) {
    && !(s.writer.Wrote? && s.reader.Reading?)
    && (s.reader.Reading? ==>
          (s.reader.head == s.db.head
           && forall k :: Get(s.reader.got, k) == if FamilyOf(k) in s.reader.todo then None else Get(s.db.rows, k)))
  }

  /** Sets in hand and a running checkpoint carry the block memory is at. */
  ghost predicate Stamped(s: State) {
    && (s.applied.Some? ==> s.memory == Some(HeadOf(s.applied.value)))
    && (s.forced.Some? ==> s.memory == Some(HeadOf(s.forced.value)))
    && (s.checkpoint.Some? ==> s.memory == s.checkpoint)
  }

  ghost predicate IsPrefix(db: Db, d: Db, log: seq<WriteSet>, n: nat) {
    n <= |log| && d == Fold(db, log[..n])
  }

  /** The first n sets end with one of the block; with no set at all, the tables were at that block from the start. */
  predicate EndsAt(db: Db, log: seq<WriteSet>, n: nat, blockNum: u64) {
    n <= |log|
    && if n > 0 then log[n - 1].blockNum == blockNum else db.head.Some? && db.head.value.blockNum == blockNum
  }

  /** Some fold through a write set of the block. */
  ghost predicate ThroughBlock(db: Db, d: Db, log: seq<WriteSet>, blockNum: u64) {
    exists j: nat :: EndsAt(db, log, j, blockNum) && IsPrefix(db, d, log, j)
  }

  /** The sets written so far, in order. */
  function Written(s: State): seq<WriteSet> {
    if s.written <= |s.log| then s.log[..s.written] else s.log
  }

  ghost predicate TablesDurable(s: State, db: Db) {
    && IsPrefix(db, s.db, s.log, s.written)
    && (s.writer.Wrote? ==> 0 < s.written && EndsAt(db, s.log, s.written, s.writer.blockNum))
  }

  ghost predicate SomePrefix(s: State, db: Db, d: Db) {
    exists j: nat :: IsPrefix(db, d, Written(s), j)
  }

  ghost predicate CopiesDurable(s: State, db: Db) {
    && (forall n :: n in s.clones ==> SomePrefix(s, db, s.clones[n]))
    && (forall n :: n in s.clones && n !in s.named ==> ThroughBlock(db, s.clones[n], Written(s), n))
    && (forall i :: 0 <= i < |s.snapshots| ==> SomePrefix(s, db, s.snapshots[i]))
  }

  /** Everything is where it belongs in the stages. */
  ghost predicate InOrder(s: State) {
    BlocksInOrder(s) && LogInOrder(s) && BatchesCovered(s) && AheadKnown(InFlight(s)) && ReaderInStep(s) && Stamped(s)
  }

  ghost predicate Inv(s: State, db: Db) {
    InOrder(s) && (!s.stale ==> TablesDurable(s, db) && CopiesDurable(s, db))
  }

  // ---- Every step keeps the invariants ----

  lemma Regroup<T>(a: seq<T>, b: seq<T>, c: seq<T>)
    ensures a + b + c == a + (b + c)
  {
  }

  lemma FirstOff<T>(s: seq<T>)
    requires s != []
    ensures [s[0]] + s[1..] == s
  {
  }

  /** A step either passes the upstream on, or takes its first block into the log. */
  lemma StepUpstream(s: State, a: Action, epochLength: u64)
    requires Enabled(s, a, epochLength)
    ensures var t := Step(s, a, epochLength);
            match a
            case Receive(b) => Upstream(t) == Upstream(s) + [b]
            case SendApplied => Upstream(s) == [HeadOf(s.applied.value)] + Upstream(t)
            case _ => Upstream(t) == Upstream(s)
  {
    match a
    case Receive(b) =>
      Regroup(s.prepared, s.raw, [b]);
      Regroup(InHand(s.applied), s.prepared + s.raw, [b]);
    case Decode =>
      FirstOff(s.raw);
      Regroup(s.prepared, [s.raw[0]], s.raw[1..]);
    case Apply(ws) =>
      FirstOff(s.prepared);
      Regroup([s.prepared[0]], s.prepared[1..], s.raw);
    case _ =>
  }

  lemma StepKeepsBlocks(s: State, a: Action, epochLength: u64)
    requires BlocksInOrder(s) && s.written <= |s.log| && Enabled(s, a, epochLength)
    ensures BlocksInOrder(Step(s, a, epochLength))
  {
    StepUpstream(s, a, epochLength);
    match a
    case Receive(b) => Regroup(BlocksOf(s.log), Upstream(s), [b]);
    case SendApplied =>
      BlocksAppend(s.log, s.applied.value);
      Regroup(BlocksOf(s.log), [HeadOf(s.applied.value)], Upstream(Step(s, a, epochLength)));
    case SendForced => BlocksAppend(s.log, s.forced.value);
    case WriteSnapshot(ws) => BlocksInsert(s.log, s.written, ws);
    case _ =>
  }

  /** How a step changes the batches in flight. */
  lemma StepInFlight(s: State, a: Action, epochLength: u64)
    requires Enabled(s, a, epochLength)
    ensures var t := Step(s, a, epochLength);
            match a
            case StartBuild => InFlight(t) == InFlight(s) + BuilderBatch(t.builder) && Built(t) == Built(s)
            case SeeFamily(_) =>
              && Built(t) == Built(s) && |InFlight(t)| == |InFlight(s)| == |Built(s)| + 1
              && InFlight(t)[|Built(s)|] == BuilderBatch(t.builder)[0]
              && (forall i :: 0 <= i < |Built(s)| ==> InFlight(t)[i] == InFlight(s)[i])
            case FinishBuild => InFlight(t) == InFlight(s) && Built(t) == Built(s) + BuilderBatch(s.builder)
            case WriteGated => InFlight(s) == [s.writer.batch] + InFlight(t) && Built(s) == [s.writer.batch] + Built(t)
            case WriteSnapshot(ws) =>
              && InFlight(t) == AnnounceAll(InFlight(s), ws.delta.store.Keys)
              && Built(t) == AnnounceAll(Built(s), ws.delta.store.Keys)
            case _ => InFlight(t) == InFlight(s) && Built(t) == Built(s)
  {
    var t := Step(s, a, epochLength);
    match a
    case SeeFamily(f) =>
    case FinishBuild => assert Built(t) == Built(s) + BuilderBatch(s.builder);
    case WriteGated => assert Built(s) == [s.writer.batch] + Built(t);
    case TakeBatch(_) => assert Built(t) == Built(s);
    case WriteSnapshot(ws) =>
      AnnounceJoin(WriterBatch(s.writer), s.batches, ws.delta.store.Keys);
      AnnounceJoin(Built(s), BuilderBatch(s.builder), ws.delta.store.Keys);
      assert AnnounceAll(WriterBatch(s.writer), ws.delta.store.Keys) == WriterBatch(t.writer);
      assert AnnounceAll(BuilderBatch(s.builder), ws.delta.store.Keys) == BuilderBatch(t.builder);
    case _ =>
  }

  lemma AnnounceJoin(a: seq<Batch>, b: seq<Batch>, keys: set<RowKey>)
    ensures AnnounceAll(a + b, keys) == AnnounceAll(a, keys) + AnnounceAll(b, keys)
  {
  }

  lemma AnnounceKeepsSets(batches: seq<Batch>, keys: set<RowKey>)
    ensures SetsOf(AnnounceAll(batches, keys)) == SetsOf(batches)
  {
  }

  lemma SetsAppend(batches: seq<Batch>, b: Batch)
    ensures SetsOf(batches + [b]) == SetsOf(batches) + [b.ws]
    ensures SetsOf([b] + batches) == [b.ws] + SetsOf(batches)
  {
  }

  lemma UnwrittenGrows(log: seq<WriteSet>, written: nat, ws: WriteSet)
    requires written <= |log|
    ensures (log + [ws])[written..] == log[written..] + [ws]
  {
  }

  lemma StepKeepsLog(s: State, a: Action, epochLength: u64)
    requires LogInOrder(s) && Enabled(s, a, epochLength)
    ensures LogInOrder(Step(s, a, epochLength))
  {
    var t := Step(s, a, epochLength);
    StepInFlight(s, a, epochLength);
    match a
    case StartBuild =>
      SetsAppend(InFlight(s), BuilderBatch(t.builder)[0]);
      FirstOff(s.ingress);
      Regroup(SetsOf(InFlight(s)), [s.ingress[0]], t.ingress);
    case SeeFamily(_) =>
      assert SetsOf(InFlight(t)) == SetsOf(InFlight(s));
    case WriteGated =>
      SetsAppend(InFlight(t), s.writer.batch);
      Regroup([s.writer.batch.ws], SetsOf(InFlight(t)), s.ingress);
      WrittenMoves(s.log, s.written, s.writer.batch.ws, SetsOf(InFlight(t)) + s.ingress);
    case SendApplied =>
      UnwrittenGrows(s.log, s.written, s.applied.value);
      Regroup(SetsOf(InFlight(s)), s.ingress, [s.applied.value]);
    case SendForced =>
      UnwrittenGrows(s.log, s.written, s.forced.value);
      Regroup(SetsOf(InFlight(s)), s.ingress, [s.forced.value]);
    case WriteSnapshot(ws) =>
      AnnounceKeepsSets(InFlight(s), ws.delta.store.Keys);
      assert t.log[t.written..] == s.log[s.written..];
    case _ =>
  }

  lemma WrittenMoves(log: seq<WriteSet>, written: nat, ws: WriteSet, rest: seq<WriteSet>)
    requires written <= |log| && log[written..] == [ws] + rest
    ensures written < |log| && log[written] == ws && log[written + 1..] == rest
  {
    assert |log[written..]| == 1 + |rest|;
    assert log[written..][0] == ws;
    assert log[written..][1..] == log[written + 1..];
  }

  lemma StepKeepsAhead(s: State, a: Action, epochLength: u64)
    requires AheadKnown(InFlight(s)) && Enabled(s, a, epochLength)
    ensures AheadKnown(InFlight(Step(s, a, epochLength)))
  {
    var t := Step(s, a, epochLength);
    StepInFlight(s, a, epochLength);
    forall i, j, k | 0 <= i < j < |InFlight(t)| && k in InFlight(t)[i].ws.delta.store
      ensures k in InFlight(t)[j].ahead
    {
      if a.WriteGated? {
        assert InFlight(s)[i + 1] == InFlight(t)[i] && InFlight(s)[j + 1] == InFlight(t)[j];
      } else if a.WriteSnapshot? {
        assert InFlight(t)[i].ws == InFlight(s)[i].ws && k in InFlight(s)[j].ahead;
      } else {
        assert InFlight(t)[i] == InFlight(s)[i];
        if a.StartBuild? && j == |InFlight(s)| {
          assert InFlight(s)[i] in InFlight(s);
          assert k in StoredBy(InFlight(s));
        } else {
          assert k in InFlight(s)[j].ahead;
        }
      }
    }
  }

  lemma StepKeepsCovered(s: State, a: Action, epochLength: u64)
    requires BatchesCovered(s) && AheadKnown(InFlight(s)) && Enabled(s, a, epochLength)
    ensures BatchesCovered(Step(s, a, epochLength))
  {
    var t := Step(s, a, epochLength);
    StepInFlight(s, a, epochLength);
    match a
    case SeeFamily(f) =>
      var b := BuilderBatch(t.builder)[0];
      forall k | k in t.db.rows && FamilyOf(k) !in t.builder.todo && b.ws.fullReplace
        ensures k in b.seen || k in b.ahead
      {
        assert FamilyOf(k) == f ==> k in RowsIn(s.db.rows, f);
      }
    case WriteGated => WriteKeepsCovered(s, epochLength);
    case WriteSnapshot(ws) => SnapshotKeepsCovered(s, ws, epochLength);
    case _ =>
  }

  lemma AnnounceCovers(b: Batch, todo: set<Family>, ws: WriteSet, db: Db)
    requires Covered(b, todo, db)
    ensures Covered(Announce(b, ws.delta.store.Keys), todo, ApplyWriteSet(ws, db))
  {
  }

  lemma SnapshotKeepsCovered(s: State, ws: WriteSet, epochLength: u64)
    requires BatchesCovered(s) && Enabled(s, WriteSnapshot(ws), epochLength)
    ensures BatchesCovered(Step(s, WriteSnapshot(ws), epochLength))
  {
    var t := Step(s, WriteSnapshot(ws), epochLength);
    StepInFlight(s, WriteSnapshot(ws), epochLength);
    forall b | b in Built(t)
      ensures Covered(b, {}, t.db)
    {
      var j :| 0 <= j < |Built(t)| && Built(t)[j] == b;
      assert Built(s)[j] in Built(s);
      AnnounceCovers(Built(s)[j], {}, ws, s.db);
    }
    if s.builder.Building? {
      AnnounceCovers(BuilderBatch(s.builder)[0], s.builder.todo, ws, s.db);
    }
  }

  /** Rows that a write adds were announced to every batch behind it. */
  lemma WriteKeepsCovered(s: State, epochLength: u64)
    requires BatchesCovered(s) && AheadKnown(InFlight(s)) && Enabled(s, WriteGated, epochLength)
    ensures BatchesCovered(Step(s, WriteGated, epochLength))
  {
    var t := Step(s, WriteGated, epochLength);
    StepInFlight(s, WriteGated, epochLength);
    assert InFlight(s)[0] == s.writer.batch;
    forall k | k in t.db.rows && k !in s.db.rows
      ensures k in s.writer.batch.ws.delta.store
    {
    }
    forall b | b in Built(t)
      ensures b in Built(s) && Covered(b, {}, t.db)
    {
      var j :| 0 <= j < |Built(t)| && Built(t)[j] == b;
      assert Built(s)[j + 1] == b && InFlight(s)[j + 1] == b;
    }
    if s.builder.Building? {
      assert InFlight(s)[|Built(s)|] == BuilderBatch(s.builder)[0];
    }
  }

  lemma StepKeepsReader(s: State, a: Action, epochLength: u64)
    requires ReaderInStep(s) && Enabled(s, a, epochLength)
    ensures ReaderInStep(Step(s, a, epochLength))
  {
    var t := Step(s, a, epochLength);
    match a
    case ReadFamily(f) =>
      forall k
        ensures Get(t.reader.got, k) == if FamilyOf(k) in t.reader.todo then None else Get(t.db.rows, k)
      {
        assert Get(s.reader.got, k) == if FamilyOf(k) in s.reader.todo then None else Get(s.db.rows, k);
        assert Get(RowsIn(s.db.rows, f), k) == if FamilyOf(k) == f then Get(s.db.rows, k) else None;
      }
    case _ =>
  }

  lemma {:induction false} FoldAppend(db: Db, log: seq<WriteSet>, n: nat)
    requires n < |log|
    ensures Fold(db, log[..n + 1]) == ApplyWriteSet(log[n], Fold(db, log[..n]))
  {
    assert log[..n + 1][..n] == log[..n];
  }

  /** A log only grows, so what was a prefix stays one. */
  lemma PrefixKept(db: Db, d: Db, log: seq<WriteSet>, more: seq<WriteSet>, n: nat)
    requires IsPrefix(db, d, log, n) && log <= more
    ensures IsPrefix(db, d, more, n)
    ensures forall b :: EndsAt(db, log, n, b) ==> EndsAt(db, more, n, b)
  {
    assert more[..n] == log[..n];
  }

  /** A write does what its set would do directly if and only if the batch reaches every row then present. */
  lemma WriteIsExact(s: State, epochLength: u64)
    requires Enabled(s, WriteGated, epochLength)
    ensures Step(s, WriteGated, epochLength).db == ApplyWriteSet(s.writer.batch.ws, s.db)
            <==> Reaches(s.writer.batch, s.db)
  {
    var b := s.writer.batch;
    if b.ws.fullReplace {
      FullReplaceIsExact(b.seen, b.ws, s.db);
      FullReplaceIsExact(s.db.rows.Keys, b.ws, s.db);
    }
  }

  /** A batch that reaches every row it was built behind reaches every row present when it is written. */
  lemma WholeReaches(s: State, epochLength: u64)
    requires BatchesCovered(s) && Enabled(s, WriteGated, epochLength) && Whole(s.writer.batch)
    ensures Reaches(s.writer.batch, s.db)
  {
    assert s.writer.batch in Built(s);
  }

  /** The batch in the writer's hand is the next set of the log. */
  lemma NextInLog(s: State)
    requires LogInOrder(s) && s.writer.Waiting?
    ensures s.written < |s.log| && s.log[s.written] == s.writer.batch.ws
  {
    var rest := s.batches + BuilderBatch(s.builder);
    Regroup([s.writer.batch], s.batches, BuilderBatch(s.builder));
    SetsAppend(rest, s.writer.batch);
    Regroup([s.writer.batch.ws], SetsOf(rest), s.ingress);
    WrittenMoves(s.log, s.written, s.writer.batch.ws, SetsOf(rest) + s.ingress);
  }

  lemma StepKeepsTables(s: State, a: Action, epochLength: u64, db: Db)
    requires LogInOrder(s) && TablesDurable(s, db) && Enabled(s, a, epochLength) && !Step(s, a, epochLength).stale
    ensures TablesDurable(Step(s, a, epochLength), db)
  {
    if a.WriteGated? {
      WriteKeepsTables(s, epochLength, db);
    } else if a.WriteSnapshot? {
      SnapshotIsNext(s.log, s.written, a.ws, db);
    } else {
      PrefixKept(db, s.db, s.log, Step(s, a, epochLength).log, s.written);
    }
  }

  lemma WriteKeepsTables(s: State, epochLength: u64, db: Db)
    requires LogInOrder(s) && IsPrefix(db, s.db, s.log, s.written) && Enabled(s, WriteGated, epochLength)
    requires Reaches(s.writer.batch, s.db)
    ensures TablesDurable(Step(s, WriteGated, epochLength), db)
  {
    NextInLog(s);
    WriteIsExact(s, epochLength);
    FoldAppend(db, s.log, s.written);
  }

  lemma {:induction false} SnapshotIsNext(log: seq<WriteSet>, written: nat, ws: WriteSet, db: Db)
    requires written <= |log|
    ensures var more := WrittenNext(log, written, ws);
            IsPrefix(db, ApplyWriteSet(ws, Fold(db, log[..written])), more, written + 1)
  {
    var more := WrittenNext(log, written, ws);
    assert more[..written] == log[..written] && more[written] == ws;
    FoldAppend(db, more, written);
  }

  /** What is written stays written, in order. */
  lemma WrittenGrows(s: State, a: Action, epochLength: u64)
    requires s.written <= |s.log| && Enabled(s, a, epochLength)
    requires a.WriteGated? ==> s.written < |s.log|
    ensures Written(s) <= Written(Step(s, a, epochLength))
  {
    var t := Step(s, a, epochLength);
    assert t.log[..s.written] == s.log[..s.written];
    assert Written(t)[..s.written] == t.log[..s.written];
  }

  lemma StepWrites(s: State, a: Action, epochLength: u64)
    requires LogInOrder(s) && Enabled(s, a, epochLength)
    ensures Written(s) <= Written(Step(s, a, epochLength))
  {
    if a.WriteGated? {
      NextInLog(s);
    }
    WrittenGrows(s, a, epochLength);
  }

  lemma SomePrefixKept(s: State, a: Action, epochLength: u64, db: Db, d: Db)
    requires LogInOrder(s) && Enabled(s, a, epochLength) && SomePrefix(s, db, d)
    ensures SomePrefix(Step(s, a, epochLength), db, d)
  {
    StepWrites(s, a, epochLength);
    var j: nat :| IsPrefix(db, d, Written(s), j);
    PrefixKept(db, d, Written(s), Written(Step(s, a, epochLength)), j);
  }

  lemma ThroughBlockKept(s: State, a: Action, epochLength: u64, db: Db, d: Db, n: u64)
    requires LogInOrder(s) && Enabled(s, a, epochLength) && ThroughBlock(db, d, Written(s), n)
    ensures ThroughBlock(db, d, Written(Step(s, a, epochLength)), n)
  {
    StepWrites(s, a, epochLength);
    var j: nat :| EndsAt(db, Written(s), j, n) && IsPrefix(db, d, Written(s), j);
    PrefixKept(db, d, Written(s), Written(Step(s, a, epochLength)), j);
  }

  lemma TablesArePrefix(s: State, db: Db)
    requires LogInOrder(s) && IsPrefix(db, s.db, s.log, s.written)
    ensures IsPrefix(db, s.db, Written(s), s.written)
    ensures forall b :: EndsAt(db, s.log, s.written, b) ==> EndsAt(db, Written(s), s.written, b)
  {
    assert Written(s)[..s.written] == s.log[..s.written];
  }

  lemma StepKeepsClones(s: State, a: Action, epochLength: u64, db: Db, n: u64)
    requires Inv(s, db) && Enabled(s, a, epochLength) && !s.stale
    requires n in Step(s, a, epochLength).clones
    ensures var t := Step(s, a, epochLength);
            SomePrefix(t, db, t.clones[n]) && (n !in t.named ==> ThroughBlock(db, t.clones[n], Written(t), n))
  {
    var t := Step(s, a, epochLength);
    if a.CloneGated? || a.CloneNamed? {
      TablesArePrefix(s, db);
      assert Written(t) == Written(s);
    }
    if n in s.clones {
      SomePrefixKept(s, a, epochLength, db, s.clones[n]);
      if n !in s.named {
        ThroughBlockKept(s, a, epochLength, db, s.clones[n], n);
      }
    }
  }

  lemma StepKeepsSnapshots(s: State, a: Action, epochLength: u64, db: Db, i: nat)
    requires Inv(s, db) && Enabled(s, a, epochLength) && !s.stale
    requires i < |Step(s, a, epochLength).snapshots|
    ensures SomePrefix(Step(s, a, epochLength), db, Step(s, a, epochLength).snapshots[i])
  {
    if i == |s.snapshots| {
      SameMaps(s.reader.got, s.db.rows);
      TablesArePrefix(s, db);
      assert Written(Step(s, a, epochLength)) == Written(s);
    } else {
      SomePrefixKept(s, a, epochLength, db, s.snapshots[i]);
    }
  }

  lemma StepKeepsCopies(s: State, a: Action, epochLength: u64, db: Db)
    requires Inv(s, db) && Enabled(s, a, epochLength) && !s.stale
    ensures CopiesDurable(Step(s, a, epochLength), db)
  {
    var t := Step(s, a, epochLength);
    forall n | n in t.clones
      ensures SomePrefix(t, db, t.clones[n]) && (n !in t.named ==> ThroughBlock(db, t.clones[n], Written(t), n))
    {
      StepKeepsClones(s, a, epochLength, db, n);
    }
    forall i | 0 <= i < |t.snapshots|
      ensures SomePrefix(t, db, t.snapshots[i])
    {
      StepKeepsSnapshots(s, a, epochLength, db, i);
    }
  }

  lemma StepKeepsStamps(s: State, a: Action, epochLength: u64)
    requires Stamped(s) && Enabled(s, a, epochLength)
    ensures Stamped(Step(s, a, epochLength))
  {
  }

  lemma StepKeepsOrder(s: State, a: Action, epochLength: u64)
    requires InOrder(s) && Enabled(s, a, epochLength)
    ensures InOrder(Step(s, a, epochLength))
  {
    StepKeepsBlocks(s, a, epochLength);
    StepKeepsLog(s, a, epochLength);
    StepKeepsAhead(s, a, epochLength);
    StepKeepsCovered(s, a, epochLength);
    StepKeepsReader(s, a, epochLength);
    StepKeepsStamps(s, a, epochLength);
  }

  lemma StepKeepsInv(s: State, a: Action, epochLength: u64, db: Db)
    requires Inv(s, db) && Enabled(s, a, epochLength)
    ensures Inv(Step(s, a, epochLength), db)
  {
    StepKeepsOrder(s, a, epochLength);
    if !Step(s, a, epochLength).stale {
      StepKeepsTables(s, a, epochLength, db);
      StepKeepsCopies(s, a, epochLength, db);
    }
  }

  // ---- Runs ----

  /** The state after some actions, or None where one of them was not enabled. */
  function RunOn(s: State, actions: seq<Action>, epochLength: u64): Option<State> {
    if actions == [] then Some(s)
    else
      var before, a := RunOn(s, actions[..|actions| - 1], epochLength), actions[|actions| - 1];
      if before.Some? && Enabled(before.value, a, epochLength) then Some(Step(before.value, a, epochLength)) else None
  }

  function Run(db: Db, head: Option<Head>, actions: seq<Action>, epochLength: u64): Option<State> {
    RunOn(Initial(db, head), actions, epochLength)
  }

  lemma {:induction false} RunKeepsInv(db: Db, head: Option<Head>, actions: seq<Action>, epochLength: u64)
    requires Run(db, head, actions, epochLength).Some?
    ensures Inv(Run(db, head, actions, epochLength).value, db)
  {
    if actions == [] {
      assert IsPrefix(db, db, [], 0) && IsPrefix(db, db, Written(Initial(db, head)), 0);
    } else {
      var before := actions[..|actions| - 1];
      RunKeepsInv(db, head, before, epochLength);
      StepKeepsInv(Run(db, head, before, epochLength).value, actions[|actions| - 1], epochLength, db);
    }
  }

  lemma {:induction false} BlocksPrefix(log: seq<WriteSet>, n: nat)
    requires n <= |log|
    ensures BlocksOf(log[..n]) <= BlocksOf(log)
  {
    if n < |log| {
      BlocksPrefix(log[..|log| - 1], n);
      assert log[..|log| - 1][..n] == log[..n];
    } else {
      assert log[..n] == log;
    }
  }

  /** Nothing in flight anywhere. */
  predicate Drained(s: State) {
    s.raw == [] && s.prepared == [] && s.applied.None? && s.ingress == [] && s.builder.NoBuild? && s.batches == []
    && !s.writer.Waiting?
  }

  /** At every moment of the run the tables were the fold of the sets written so far. */
  ghost predicate DurableThroughout(db: Db, head: Option<Head>, actions: seq<Action>, epochLength: u64) {
    var r := Run(db, head, actions, epochLength);
    && r.Some? && IsPrefix(db, r.value.db, r.value.log, r.value.written)
    && (actions == [] || DurableThroughout(db, head, actions[..|actions| - 1], epochLength))
  }

  /**
   The tables are at every moment of a run the fold of a prefix of the write sets, if and only if every
   full replace of the run reached all rows present when it was written.
   */
  lemma {:induction false} DurableIff(db: Db, head: Option<Head>, actions: seq<Action>, epochLength: u64)
    requires Run(db, head, actions, epochLength).Some?
    ensures DurableThroughout(db, head, actions, epochLength) <==> !Run(db, head, actions, epochLength).value.stale
  {
    RunKeepsInv(db, head, actions, epochLength);
    if actions != [] {
      var before, a := actions[..|actions| - 1], actions[|actions| - 1];
      DurableIff(db, head, before, epochLength);
      RunKeepsInv(db, head, before, epochLength);
      if !Run(db, head, before, epochLength).value.stale {
        StaleIsSeen(Run(db, head, before, epochLength).value, a, epochLength, db);
      }
    }
  }

  /** A write that misses a row leaves tables that are not the fold. */
  lemma StaleIsSeen(s: State, a: Action, epochLength: u64, db: Db)
    requires Inv(s, db) && Enabled(s, a, epochLength) && !s.stale
    ensures var t := Step(s, a, epochLength); t.stale ==> !IsPrefix(db, t.db, t.log, t.written)
  {
    if a.WriteGated? {
      NextInLog(s);
      WriteIsExact(s, epochLength);
      FoldAppend(db, s.log, s.written);
    }
  }

  lemma {:induction false} WrittenHead(s: State, db: Db)
    requires IsPrefix(db, s.db, s.log, s.written) && s.written > 0
    ensures s.db.head == Some(HeadOf(s.log[s.written - 1]))
  {
    FoldAppend(db, s.log, s.written - 1);
  }

  lemma {:induction false} WrittenBlocks(s: State)
    requires BlocksInOrder(s) && s.written <= |s.log|
    ensures BlocksOf(s.log[..s.written]) <= s.received
  {
    BlocksPrefix(s.log, s.written);
  }

  lemma {:induction false} DrainedIsAll(s: State, db: Db)
    requires BlocksInOrder(s) && LogInOrder(s) && IsPrefix(db, s.db, s.log, s.written) && Drained(s)
    ensures s.db == Fold(db, s.log) && BlocksOf(s.log) == s.received
  {
    assert s.log[s.written..] == [];
    assert s.log[..s.written] == s.log;
  }

  /**
   On every run in which no full replace missed a row, the tables are the fold of a prefix of the write
   sets, their head is the last set of that prefix, and the blocks in it are the first blocks received.
   When the stages are drained the prefix is everything.
   */
  lemma {:induction false} PrefixDurability(db: Db, head: Option<Head>, actions: seq<Action>, epochLength: u64)
    requires Run(db, head, actions, epochLength).Some? && !Run(db, head, actions, epochLength).value.stale
    ensures var s := Run(db, head, actions, epochLength).value;
            && s.written <= |s.log|
            && s.db == Fold(db, s.log[..s.written])
            && (s.written > 0 ==> s.db.head == Some(HeadOf(s.log[s.written - 1])))
            && BlocksOf(s.log[..s.written]) <= s.received
            && (Drained(s) ==> s.db == Fold(db, s.log) && BlocksOf(s.log) == s.received)
  {
    var s := Run(db, head, actions, epochLength).value;
    RunKeepsInv(db, head, actions, epochLength);
    WrittenBlocks(s);
    if s.written > 0 {
      WrittenHead(s, db);
    }
    if Drained(s) {
      DrainedIsAll(s, db);
    }
  }

  /**
   Every clone, and everything a gated reader has read family by family, is the fold of one prefix; a
   clone made by the write task for block n is the fold through a write set of block n.
   */
  lemma CopiesArePrefixes(db: Db, head: Option<Head>, actions: seq<Action>, epochLength: u64)
    requires Run(db, head, actions, epochLength).Some? && !Run(db, head, actions, epochLength).value.stale
    ensures var s := Run(db, head, actions, epochLength).value;
            && (forall n :: n in s.clones ==> SomePrefix(s, db, s.clones[n]))
            && (forall n :: n in s.clones && n !in s.named ==> ThroughBlock(db, s.clones[n], Written(s), n))
            && (forall i :: 0 <= i < |s.snapshots| ==> SomePrefix(s, db, s.snapshots[i]))
  {
    RunKeepsInv(db, head, actions, epochLength);
  }

  // ---- When a full replace is safe ----

  predicate StartsFullBuild(s: State, a: Action) {
    a.StartBuild? && s.ingress != [] && s.ingress[0].fullReplace
  }

  predicate WritesPastFull(s: State, a: Action) {
    a.WriteSnapshot? && exists b :: b in InFlight(s) && b.ws.fullReplace
  }

  /** Every full replace of the run starts its build with no batch in flight, and no snapshot is written past one. */
  predicate FullBuildsStartIdle(db: Db, head: Option<Head>, actions: seq<Action>, epochLength: u64) {
    actions == [] ||
    (var before := Run(db, head, actions[..|actions| - 1], epochLength);
     FullBuildsStartIdle(db, head, actions[..|actions| - 1], epochLength)
     && (before.Some? && StartsFullBuild(before.value, actions[|actions| - 1]) ==> InFlight(before.value) == [])
     && (before.Some? ==> !WritesPastFull(before.value, actions[|actions| - 1])))
  }

  /** Batches built or being built behind nothing. */
  ghost predicate BuiltIdle(s: State) {
    forall b :: b in InFlight(s) && b.ws.fullReplace ==> b.ahead == {}
  }

  lemma IdleKept(s: State, a: Action, epochLength: u64)
    requires BuiltIdle(s) && Enabled(s, a, epochLength) && (StartsFullBuild(s, a) ==> InFlight(s) == [])
    requires !WritesPastFull(s, a)
    ensures BuiltIdle(Step(s, a, epochLength))
  {
    var t := Step(s, a, epochLength);
    StepInFlight(s, a, epochLength);
    if a.WriteSnapshot? {
      forall b | b in InFlight(t)
        ensures !b.ws.fullReplace
      {
        var j :| 0 <= j < |InFlight(t)| && InFlight(t)[j] == b;
        assert InFlight(s)[j] in InFlight(s);
      }
      return;
    }
    forall b | b in InFlight(t) && b.ws.fullReplace
      ensures b.ahead == {}
    {
      if a.SeeFamily? {
        assert InFlight(s)[|Built(s)|] in InFlight(s) && InFlight(s)[|Built(s)|] == BuilderBatch(s.builder)[0];
        var j :| 0 <= j < |InFlight(t)| && InFlight(t)[j] == b;
        assert j < |Built(s)| ==> InFlight(s)[j] == b && b in InFlight(s);
      } else if a.StartBuild? && b == BuilderBatch(t.builder)[0] {
        assert InFlight(s) == [];
      } else {
        assert b in InFlight(s);
      }
    }
  }

  /** Such a run never misses a row. */
  lemma {:induction false} IdleBuildsAreWhole(db: Db, head: Option<Head>, actions: seq<Action>, epochLength: u64)
    requires Run(db, head, actions, epochLength).Some? && FullBuildsStartIdle(db, head, actions, epochLength)
    ensures var s := Run(db, head, actions, epochLength).value; !s.stale && BuiltIdle(s)
  {
    if actions != [] {
      var before, a := actions[..|actions| - 1], actions[|actions| - 1];
      var s := Run(db, head, before, epochLength).value;
      IdleBuildsAreWhole(db, head, before, epochLength);
      IdleKept(s, a, epochLength);
      RunKeepsInv(db, head, before, epochLength);
      if a.WriteGated? {
        assert s.writer.batch in Built(s) && s.writer.batch in InFlight(s);
        WholeReaches(s, epochLength);
      }
    }
  }
}
