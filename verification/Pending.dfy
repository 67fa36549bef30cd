/**
 The shared `pending` counter of the persist pipelines: submission (src/persist/shared.rs), the sqlite
 lanes (src/persist/workers.rs) and the index lane (src/persist/index_state_write.rs) as one step
 relation. Every operation carries its id, so that the fate of each one can be told.
 */
module Pending {
  import opened Ints

  type OpId = nat

  datatype LaneKind = Blocks | History | Index

  const ENCODE_WORKERS: nat := 4
  const BATCH_MAX: nat := 128

  function WorkersOf(kind: LaneKind): nat { if kind.Index? then 1 else ENCODE_WORKERS }
  function IngressCapacity(kind: LaneKind): nat { if kind.Index? then 32 else 64 }
  function EncodedCapacity(kind: LaneKind): nat { 2 * ENCODE_WORKERS }
  function BatchCapacity(kind: LaneKind): nat { if kind.Index? then 32 else 2 }

  /** A counted operation whose send is under way; `nowait` sends give up when the queue is full. */
  datatype Sending = Sending(op: OpId, nowait: bool)

  datatype Worker = Ready | Busy(op: OpId) | Quit

  datatype Coalescer = Gathering(ops: seq<OpId>) | CoalescerQuit

  /** Between the end of its write and the decrement a batch is still counted. */
  datatype Writer = Free | Writing(batch: seq<OpId>) | Settling(batch: seq<OpId>, ok: bool) | WriterQuit

  datatype Lane = Lane(
    sending: seq<Sending>, ingress: seq<OpId>, workers: seq<Worker>, encoded: seq<OpId>,
    coalescer: Coalescer, batches: seq<seq<OpId>>, writer: Writer)

  function NewLane(kind: LaneKind): Lane {
    Lane([], [], seq(WorkersOf(kind), _ => Ready), [], Gathering([]), [], Free)
  }

  /** The ingress queue has a receiver as long as some worker is left. */
  predicate IngressOpen(l: Lane) { exists w :: w in l.workers && !w.Quit? }

  predicate AllRunning(l: Lane) {
    Quit !in l.workers && !l.coalescer.CoalescerQuit? && !l.writer.WriterQuit?
  }

  datatype Action =
    | Submit(op: OpId, nowait: bool) | Deliver(i: nat) | Reject(i: nat)
    | TakeOp(w: nat) | EncodeFails(w: nat) | SendEncoded(w: nat) | DropEncoded(w: nat)
    | Gather | SendBatch | DropBatch
    | TakeBatch | WriteEnds(ok: bool) | Settle
    | StopWorker(w: nat) | StopCoalescer | StopWriter

  /** Where the operations went that a step takes out of a lane. */
  datatype Fates = Fates(rejected: seq<OpId>, failed: seq<OpId>, written: seq<OpId>, leaked: seq<OpId>) {
    function Plus(f: Fates): Fates {
      Fates(rejected + f.rejected, failed + f.failed, written + f.written, leaked + f.leaked)
    }

    function Count(op: OpId): nat { At(rejected, op) + At(failed, op) + At(written, op) + At(leaked, op) }
  }

  /** How often an operation is in a queue. */
  function At(s: seq<OpId>, op: OpId): nat {
    if s == [] then 0 else (if s[0] == op then 1 else 0) + At(s[1..], op)
  }

  const NO_FATES := Fates([], [], [], [])

  /** What a step does to its lane, to the counter, and to the operations that leave the lane. */
  datatype Outcome = Outcome(lane: Lane, entered: seq<OpId>, fates: Fates, counter: int)

  function Stay(l: Lane): Outcome { Outcome(l, [], NO_FATES, 0) }

  function Without<T>(s: seq<T>, i: nat): seq<T>
    requires i < |s|
  {
    s[..i] + s[i + 1..]
  }

  function HandOf(w: Worker): seq<OpId> {
    if w.Busy? then [w.op] else []
  }

  function Batch(w: Writer): seq<OpId> {
    if w.Writing? || w.Settling? then w.batch else []
  }

  function Flat(batches: seq<seq<OpId>>): seq<OpId> {
    if batches == [] then [] else batches[0] + Flat(batches[1..])
  }

  predicate BatchesOpen(l: Lane) { !l.writer.WriterQuit? }

  predicate EncodedOpen(kind: LaneKind, l: Lane) {
    if kind.Index? then BatchesOpen(l) else !l.coalescer.CoalescerQuit?
  }

  predicate EncodedHasRoom(kind: LaneKind, l: Lane) {
    if kind.Index? then |l.batches| < BatchCapacity(kind) else |l.encoded| < EncodedCapacity(kind)
  }

  predicate BusyAt(l: Lane, w: nat) { w < |l.workers| && l.workers[w].Busy? }

  predicate Enabled(kind: LaneKind, l: Lane, a: Action) {
    match a
    case Submit(_, _) => true
    case Deliver(i) => i < |l.sending| && IngressOpen(l) && |l.ingress| < IngressCapacity(kind)
    case Reject(i) => i < |l.sending|
                      && (!IngressOpen(l) || (l.sending[i].nowait && |l.ingress| >= IngressCapacity(kind)))
    case TakeOp(w) => w < |l.workers| && l.workers[w].Ready? && l.ingress != []
    case EncodeFails(w) => BusyAt(l, w)
    case SendEncoded(w) => BusyAt(l, w) && EncodedOpen(kind, l) && EncodedHasRoom(kind, l)
    case DropEncoded(w) => BusyAt(l, w) && !EncodedOpen(kind, l)
    case Gather => l.coalescer.Gathering? && |l.coalescer.ops| < BATCH_MAX && l.encoded != []
    case SendBatch => l.coalescer.Gathering? && l.coalescer.ops != []
                      && BatchesOpen(l) && |l.batches| < BatchCapacity(kind)
    case DropBatch => l.coalescer.Gathering? && l.coalescer.ops != [] && !BatchesOpen(l)
    case TakeBatch => l.writer.Free? && l.batches != []
    case WriteEnds(_) => l.writer.Writing?
    case Settle => l.writer.Settling?
    case StopWorker(w) => w < |l.workers| && !l.workers[w].Quit?
    case StopCoalescer => l.coalescer.Gathering?
    case StopWriter => !l.writer.WriterQuit?
  }

  /** A worker goes; with the last one the ingress queue goes too, and what it holds is lost uncounted. */
  function WorkerGone(l: Lane, w: nat): Lane
    requires w < |l.workers|
  {
    var rest := l.(workers := l.workers[w := Quit]);
    if IngressOpen(rest) then rest else rest.(ingress := [])
  }

  function LostIngress(l: Lane, w: nat): seq<OpId>
    requires w < |l.workers|
  {
    if IngressOpen(l.(workers := l.workers[w := Quit])) then [] else l.ingress
  }

  function CoalescerGone(l: Lane): Lane {
    l.(coalescer := CoalescerQuit, encoded := [])
  }

  function Step(kind: LaneKind, l: Lane, a: Action): Outcome
    requires Enabled(kind, l, a)
  {
    match a
    case Submit(op, nowait) =>
      Outcome(l.(sending := l.sending + [Sending(op, nowait)]), [op], NO_FATES, 1)
    case Deliver(i) =>
      Stay(l.(sending := Without(l.sending, i), ingress := l.ingress + [l.sending[i].op]))
    case Reject(i) =>
      Outcome(l.(sending := Without(l.sending, i)), [],
              NO_FATES.(rejected := [l.sending[i].op]), -1)
    case TakeOp(w) =>
      Stay(l.(ingress := l.ingress[1..], workers := l.workers[w := Busy(l.ingress[0])]))
    case EncodeFails(w) =>
      Outcome(l.(workers := l.workers[w := Ready]), [],
              NO_FATES.(failed := [l.workers[w].op]), -1)
    case SendEncoded(w) =>
      var op, rest := l.workers[w].op, l.(workers := l.workers[w := Ready]);
      Stay(if kind.Index? then rest.(batches := rest.batches + [[op]]) else rest.(encoded := rest.encoded + [op]))
    case DropEncoded(w) =>
      Outcome(WorkerGone(l, w), [],
              NO_FATES.(failed := [l.workers[w].op], leaked := LostIngress(l, w)), -1)
    case Gather =>
      Stay(l.(encoded := l.encoded[1..], coalescer := Gathering(l.coalescer.ops + [l.encoded[0]])))
    case SendBatch =>
      Stay(l.(coalescer := Gathering([]), batches := l.batches + [l.coalescer.ops]))
    case DropBatch =>
      Outcome(CoalescerGone(l), [],
              NO_FATES.(leaked := l.coalescer.ops + l.encoded), 0)
    case TakeBatch =>
      Stay(l.(batches := l.batches[1..], writer := Writing(l.batches[0])))
    case WriteEnds(ok) =>
      Stay(l.(writer := Settling(l.writer.batch, ok)))
    case Settle =>
      var ops := l.writer.batch;
      Outcome(l.(writer := Free), [],
              if l.writer.ok then NO_FATES.(written := ops) else NO_FATES.(failed := ops), -|l.writer.batch|)
    case StopWorker(w) =>
      Outcome(WorkerGone(l, w), [],
              NO_FATES.(leaked := HandOf(l.workers[w]) + LostIngress(l, w)), 0)
    case StopCoalescer =>
      Outcome(CoalescerGone(l), [],
              NO_FATES.(leaked := l.coalescer.ops + l.encoded), 0)
    case StopWriter =>
      Outcome(l.(writer := WriterQuit, batches := []), [],
              NO_FATES.(leaked := Batch(l.writer) + Flat(l.batches)), 0)
  }

  // ---- What a lane holds ----

  function SentOps(sending: seq<Sending>): seq<OpId> {
    seq(|sending|, i requires 0 <= i < |sending| => sending[i].op)
  }

  function Hands(workers: seq<Worker>): seq<OpId> {
    if workers == [] then [] else HandOf(workers[0]) + Hands(workers[1..])
  }

  function Gathered(c: Coalescer): seq<OpId> {
    if c.Gathering? then c.ops else []
  }

  /** How often an operation is in a lane. */
  function HeldAt(l: Lane, op: OpId): nat {
    At(SentOps(l.sending), op) + At(l.ingress, op) + At(Hands(l.workers), op) + At(l.encoded, op)
    + At(Gathered(l.coalescer), op) + At(Flat(l.batches), op) + At(Batch(l.writer), op)
  }

  /** How many operations a lane holds. */
  function Size(l: Lane): nat {
    |l.sending| + |l.ingress| + |Hands(l.workers)| + |l.encoded| + |Gathered(l.coalescer)| + |Flat(l.batches)|
    + |Batch(l.writer)|
  }

  lemma {:induction false} AtAppend(s: seq<OpId>, more: seq<OpId>, op: OpId)
    ensures At(s + more, op) == At(s, op) + At(more, op)
  {
    if s == [] {
      assert s + more == more;
    } else {
      AtAppend(s[1..], more, op);
      assert (s + more)[1..] == s[1..] + more;
    }
  }

  lemma {:induction false} AtFirst(s: seq<OpId>, op: OpId)
    requires s != []
    ensures At(s, op) == At(s[1..], op) + At([s[0]], op)
  {
  }

  lemma {:induction false} AtWithout(sending: seq<Sending>, i: nat, op: OpId)
    requires i < |sending|
    ensures At(SentOps(sending), op) == At(SentOps(Without(sending, i)), op) + At([sending[i].op], op)
  {
    var ops := SentOps(sending);
    assert ops == ops[..i] + ops[i..];
    assert SentOps(Without(sending, i)) == ops[..i] + ops[i + 1..];
    AtAppend(ops[..i], ops[i..], op);
    AtAppend(ops[..i], ops[i + 1..], op);
    AtFirst(ops[i..], op);
  }

  lemma {:induction false} AtMultiset(s: seq<OpId>, op: OpId)
    ensures At(s, op) == multiset(s)[op]
  {
    if s != [] {
      AtMultiset(s[1..], op);
      assert s == [s[0]] + s[1..];
    }
  }

  lemma {:induction false} FlatAppend(batches: seq<seq<OpId>>, b: seq<OpId>)
    ensures Flat(batches + [b]) == Flat(batches) + b
  {
    if batches == [] {
      assert Flat([b]) == b + Flat([]);
    } else {
      FlatAppend(batches[1..], b);
      assert (batches + [b])[1..] == batches[1..] + [b];
    }
  }

  lemma {:induction false} HandsFirst(first: Worker, rest: seq<Worker>, op: OpId)
    ensures At(Hands([first] + rest), op) == At(HandOf(first), op) + At(Hands(rest), op)
    ensures |Hands([first] + rest)| == |HandOf(first)| + |Hands(rest)|
  {
    assert ([first] + rest)[1..] == rest;
    AtAppend(HandOf(first), Hands(rest), op);
  }

  lemma {:induction false} HandsUpdate(workers: seq<Worker>, w: nat, x: Worker, op: OpId)
    requires w < |workers|
    ensures At(Hands(workers[w := x]), op) + At(HandOf(workers[w]), op) == At(Hands(workers), op) + At(HandOf(x), op)
    ensures |Hands(workers[w := x])| + |HandOf(workers[w])| == |Hands(workers)| + |HandOf(x)|
  {
    var first, rest := workers[0], workers[1..];
    assert workers == [first] + rest;
    HandsFirst(first, rest, op);
    if w == 0 {
      assert workers[0 := x] == [x] + rest;
      HandsFirst(x, rest, op);
    } else {
      var after := rest[w - 1 := x];
      assert workers[w := x] == [first] + after;
      HandsFirst(first, after, op);
      HandsUpdate(rest, w - 1, x, op);
    }
  }

  // ---- One step conserves every operation and keeps the count ----

  ghost predicate Conserves(l: Lane, o: Outcome, op: OpId) {
    && HeldAt(l, op) + At(o.entered, op) == HeldAt(o.lane, op) + o.fates.Count(op)
    && Size(l) + o.counter == Size(o.lane) + |o.fates.leaked|
  }

  lemma SendingConserves(kind: LaneKind, l: Lane, a: Action, op: OpId)
    requires Enabled(kind, l, a) && (a.Submit? || a.Deliver? || a.Reject?)
    ensures Conserves(l, Step(kind, l, a), op)
  {
    match a
    case Submit(entering, nowait) =>
      assert SentOps(l.sending + [Sending(entering, nowait)]) == SentOps(l.sending) + [entering];
      AtAppend(SentOps(l.sending), [entering], op);
    case Deliver(i) =>
      AtWithout(l.sending, i, op);
      AtAppend(l.ingress, [l.sending[i].op], op);
    case Reject(i) =>
      AtWithout(l.sending, i, op);
  }

  lemma WorkerConserves(kind: LaneKind, l: Lane, a: Action, op: OpId)
    requires Enabled(kind, l, a) && (a.TakeOp? || a.EncodeFails? || a.SendEncoded?)
    ensures Conserves(l, Step(kind, l, a), op)
  {
    match a
    case TakeOp(w) =>
      AtFirst(l.ingress, op);
      HandsUpdate(l.workers, w, Busy(l.ingress[0]), op);
    case EncodeFails(w) =>
      HandsUpdate(l.workers, w, Ready, op);
    case SendEncoded(w) =>
      HandsUpdate(l.workers, w, Ready, op);
      FlatAppend(l.batches, [l.workers[w].op]);
      AtAppend(Flat(l.batches), [l.workers[w].op], op);
      AtAppend(l.encoded, [l.workers[w].op], op);
  }

  lemma BatchConserves(kind: LaneKind, l: Lane, a: Action, op: OpId)
    requires Enabled(kind, l, a)
    requires a.Gather? || a.SendBatch? || a.TakeBatch? || a.WriteEnds? || a.Settle?
    ensures Conserves(l, Step(kind, l, a), op)
  {
    match a
    case Gather =>
      AtFirst(l.encoded, op);
      AtAppend(l.coalescer.ops, [l.encoded[0]], op);
    case SendBatch =>
      FlatAppend(l.batches, l.coalescer.ops);
      AtAppend(Flat(l.batches), l.coalescer.ops, op);
    case TakeBatch =>
      AtAppend(l.batches[0], Flat(l.batches[1..]), op);
    case _ =>
  }

  lemma {:induction false} WorkerGoneConserves(l: Lane, w: nat, op: OpId)
    requires w < |l.workers|
    ensures var gone, lost := WorkerGone(l, w), LostIngress(l, w);
            && HeldAt(l, op) == HeldAt(gone, op) + At(HandOf(l.workers[w]), op) + At(lost, op)
            && Size(l) == Size(gone) + |HandOf(l.workers[w])| + |lost|
  {
    HandsUpdate(l.workers, w, Quit, op);
    assert At(HandOf(Quit), op) == 0;
    if IngressOpen(l.(workers := l.workers[w := Quit])) {
      assert At(LostIngress(l, w), op) == 0;
    } else {
      assert At(WorkerGone(l, w).ingress, op) == 0;
    }
  }

  lemma WorkerStopConserves(kind: LaneKind, l: Lane, a: Action, op: OpId)
    requires Enabled(kind, l, a) && (a.DropEncoded? || a.StopWorker?)
    ensures Conserves(l, Step(kind, l, a), op)
  {
    WorkerGoneConserves(l, a.w, op);
    AtAppend(HandOf(l.workers[a.w]), LostIngress(l, a.w), op);
  }

  lemma StopConserves(kind: LaneKind, l: Lane, a: Action, op: OpId)
    requires Enabled(kind, l, a) && (a.DropBatch? || a.StopCoalescer? || a.StopWriter?)
    ensures Conserves(l, Step(kind, l, a), op)
  {
    if a.StopWriter? {
      AtAppend(Batch(l.writer), Flat(l.batches), op);
    } else {
      AtAppend(l.coalescer.ops, l.encoded, op);
    }
  }

  lemma StepConserves(kind: LaneKind, l: Lane, a: Action, op: OpId)
    requires Enabled(kind, l, a)
    ensures Conserves(l, Step(kind, l, a), op)
  {
    match a
    case Submit(_, _) => SendingConserves(kind, l, a, op);
    case Deliver(_) => SendingConserves(kind, l, a, op);
    case Reject(_) => SendingConserves(kind, l, a, op);
    case TakeOp(_) => WorkerConserves(kind, l, a, op);
    case EncodeFails(_) => WorkerConserves(kind, l, a, op);
    case SendEncoded(_) => WorkerConserves(kind, l, a, op);
    case Gather => BatchConserves(kind, l, a, op);
    case SendBatch => BatchConserves(kind, l, a, op);
    case TakeBatch => BatchConserves(kind, l, a, op);
    case WriteEnds(_) => BatchConserves(kind, l, a, op);
    case Settle => BatchConserves(kind, l, a, op);
    case DropEncoded(_) => WorkerStopConserves(kind, l, a, op);
    case StopWorker(_) => WorkerStopConserves(kind, l, a, op);
    case _ => StopConserves(kind, l, a, op);
  }

  lemma WorkerGoneStops(l: Lane)
    ensures forall w: nat :: w < |l.workers| ==> !AllRunning(WorkerGone(l, w))
  {
    forall w: nat | w < |l.workers|
      ensures !AllRunning(WorkerGone(l, w))
    {
      assert WorkerGone(l, w).workers[w] == Quit;
    }
  }

  /** Nothing leaks before some stage of the lane has stopped, and a stopped stage stays stopped. */
  lemma LeakNeedsStop(kind: LaneKind, l: Lane, a: Action)
    requires Enabled(kind, l, a) && AllRunning(Step(kind, l, a).lane)
    ensures AllRunning(l) && Step(kind, l, a).fates.leaked == []
  {
    var t := Step(kind, l, a).lane;
    WorkerGoneStops(l);
    forall w | 0 <= w < |l.workers|
      ensures l.workers[w] != Quit
    {
      assert t.workers[w] in t.workers;
    }
  }

  // ---- All lanes ----

  datatype State = State(blocks: Lane, history: Lane, index: Lane, pending: int, submitted: seq<OpId>, fates: Fates)
  {
    function Of(kind: LaneKind): Lane {
      match kind
      case Blocks => blocks
      case History => history
      case Index => index
    }

    function With(kind: LaneKind, l: Lane): State {
      match kind
      case Blocks => this.(blocks := l)
      case History => this.(history := l)
      case Index => this.(index := l)
    }

    function InFlightAt(op: OpId): nat { HeldAt(blocks, op) + HeldAt(history, op) + HeldAt(index, op) }

    function InFlight(): nat { Size(blocks) + Size(history) + Size(index) }

    predicate NothingStopped() { AllRunning(blocks) && AllRunning(history) && AllRunning(index) }
  }

  function Initial(): State {
    State(NewLane(Blocks), NewLane(History), NewLane(Index), 0, [], NO_FATES)
  }

  datatype Move = Move(kind: LaneKind, action: Action)

  predicate CanMove(s: State, m: Move) { Enabled(m.kind, s.Of(m.kind), m.action) }

  function Advance(s: State, m: Move): State
    requires CanMove(s, m)
  {
    var o := Step(m.kind, s.Of(m.kind), m.action);
    var t := s.With(m.kind, o.lane);
    t.(pending := s.pending + o.counter, submitted := s.submitted + o.entered, fates := s.fates.Plus(o.fates))
  }

  ghost predicate Conserved(s: State) {
    forall op :: At(s.submitted, op) == s.InFlightAt(op) + s.fates.Count(op)
  }

  ghost predicate Counted(s: State) {
    && s.pending == s.InFlight() + |s.fates.leaked|
    && (s.NothingStopped() ==> s.fates.leaked == [])
  }

  lemma WithAt(s: State, kind: LaneKind, l: Lane, op: OpId)
    ensures s.With(kind, l).InFlightAt(op) + HeldAt(s.Of(kind), op) == s.InFlightAt(op) + HeldAt(l, op)
    ensures s.With(kind, l).InFlight() + Size(s.Of(kind)) == s.InFlight() + Size(l)
  {
  }

  lemma CountPlus(f: Fates, g: Fates, op: OpId)
    ensures f.Plus(g).Count(op) == f.Count(op) + g.Count(op)
  {
    AtAppend(f.rejected, g.rejected, op);
    AtAppend(f.failed, g.failed, op);
    AtAppend(f.written, g.written, op);
    AtAppend(f.leaked, g.leaked, op);
  }

  lemma {:induction false} AdvanceConserves(s: State, m: Move, op: OpId)
    requires CanMove(s, m) && At(s.submitted, op) == s.InFlightAt(op) + s.fates.Count(op)
    ensures At(Advance(s, m).submitted, op) == Advance(s, m).InFlightAt(op) + Advance(s, m).fates.Count(op)
  {
    var o := Step(m.kind, s.Of(m.kind), m.action);
    StepConserves(m.kind, s.Of(m.kind), m.action, op);
    WithAt(s, m.kind, o.lane, op);
    AtAppend(s.submitted, o.entered, op);
    CountPlus(s.fates, o.fates, op);
  }

  lemma AdvanceCounts(s: State, m: Move)
    requires CanMove(s, m) && Counted(s)
    ensures Counted(Advance(s, m))
  {
    StepConserves(m.kind, s.Of(m.kind), m.action, 0);
    if Advance(s, m).NothingStopped() {
      LeakNeedsStop(m.kind, s.Of(m.kind), m.action);
    }
  }

  /** The state after a run, or None where some move was not possible. */
  function Run(s: State, moves: seq<Move>): Option<State>
    decreases |moves|
  {
    if moves == [] then Some(s)
    else if CanMove(s, moves[0]) then Run(Advance(s, moves[0]), moves[1..])
    else None
  }

  lemma {:induction false} RunKeeps(s: State, moves: seq<Move>)
    requires Conserved(s) && Counted(s) && Run(s, moves).Some?
    ensures Conserved(Run(s, moves).value) && Counted(Run(s, moves).value)
    ensures s.fates.leaked <= Run(s, moves).value.fates.leaked
    decreases |moves|
  {
    if moves != [] {
      forall op
        ensures At(Advance(s, moves[0]).submitted, op)
                == Advance(s, moves[0]).InFlightAt(op) + Advance(s, moves[0]).fates.Count(op)
      {
        AdvanceConserves(s, moves[0], op);
      }
      AdvanceCounts(s, moves[0]);
      RunKeeps(Advance(s, moves[0]), moves[1..]);
    }
  }

  lemma {:induction false} NoHands(workers: seq<Worker>)
    requires forall w :: w in workers ==> w.Ready?
    ensures Hands(workers) == []
  {
    if workers != [] {
      assert workers[0] in workers;
      NoHands(workers[1..]);
    }
  }

  lemma StartsEmpty()
    ensures Conserved(Initial()) && Counted(Initial())
  {
    forall kind
      ensures Hands(NewLane(kind).workers) == []
    {
      NoHands(NewLane(kind).workers);
    }
  }

  /** No operation in any queue, buffer or hand of a lane. */
  predicate Drained(l: Lane) {
    l.sending == [] && l.ingress == [] && (forall w :: w in l.workers ==> !w.Busy?) && l.encoded == []
    && Gathered(l.coalescer) == [] && (forall b :: b in l.batches ==> b == []) && Batch(l.writer) == []
  }

  lemma {:induction false} HandsEmptyIff(workers: seq<Worker>)
    ensures Hands(workers) == [] <==> forall w :: w in workers ==> !w.Busy?
  {
    if workers != [] {
      HandsEmptyIff(workers[1..]);
      assert workers == [workers[0]] + workers[1..];
    }
  }

  lemma {:induction false} FlatEmptyIff(batches: seq<seq<OpId>>)
    ensures Flat(batches) == [] <==> forall b :: b in batches ==> b == []
  {
    if batches != [] {
      FlatEmptyIff(batches[1..]);
      assert |Flat(batches)| == |batches[0]| + |Flat(batches[1..])|;
      assert batches == [batches[0]] + batches[1..];
      if Flat(batches) == [] {
        assert batches[0] == [];
      } else if batches[0] == [] {
        var b :| b in batches[1..] && b != [];
        assert b in batches;
      } else {
        assert batches[0] in batches;
      }
    }
  }

  lemma DrainedIff(l: Lane)
    ensures Drained(l) <==> Size(l) == 0
  {
    HandsEmptyIff(l.workers);
    FlatEmptyIff(l.batches);
  }

  // ---- Over every run ----

  /**
   On every interleaving of all stages: each submitted operation is in flight or has met exactly one
   fate; the counter is the number in flight plus the number lost by stopped stages, so it never falls
   below what is in flight nor below zero, and it is exact while every stage runs.
   */
  lemma {:induction false} PendingCounts(moves: seq<Move>)
    requires Run(Initial(), moves).Some?
    ensures var s := Run(Initial(), moves).value;
            && (forall op :: At(s.submitted, op) == s.InFlightAt(op) + s.fates.Count(op))
            && 0 <= s.InFlight() <= s.pending == s.InFlight() + |s.fates.leaked|
            && (s.NothingStopped() ==> s.pending == s.InFlight())
  {
    StartsEmpty();
    RunKeeps(Initial(), moves);
  }

  /**
   `wait_idle` sees zero exactly when every lane is drained and nothing was lost; then each submitted
   operation was rejected, failed or written, as often as it was submitted.
   */
  lemma {:induction false} IdleMeansDrained(moves: seq<Move>)
    requires Run(Initial(), moves).Some?
    ensures var s := Run(Initial(), moves).value;
            && (s.pending == 0 <==>
                (Drained(s.blocks) && Drained(s.history) && Drained(s.index) && s.fates.leaked == []))
            && (s.pending == 0 ==> multiset(s.submitted) == multiset(s.fates.rejected + s.fates.failed + s.fates.written))
  {
    PendingCounts(moves);
    var s := Run(Initial(), moves).value;
    DrainedIff(s.blocks);
    DrainedIff(s.history);
    DrainedIff(s.index);
    if s.pending == 0 {
      forall op
        ensures multiset(s.submitted)[op] == multiset(s.fates.rejected + s.fates.failed + s.fates.written)[op]
      {
        AtAppend(s.fates.rejected, s.fates.failed, op);
        AtAppend(s.fates.rejected + s.fates.failed, s.fates.written, op);
        AtMultiset(s.submitted, op);
        AtMultiset(s.fates.rejected + s.fates.failed + s.fates.written, op);
        NoneHeld(s.blocks, op);
        NoneHeld(s.history, op);
        NoneHeld(s.index, op);
      }
    }
  }

  lemma NoneHeld(l: Lane, op: OpId)
    requires Size(l) == 0
    ensures HeldAt(l, op) == 0
  {
    assert SentOps(l.sending) == [];
  }

  /** An operation lost by a stopped stage keeps the counter above zero for good. */
  lemma {:induction false} LeakIsForever(before: seq<Move>, after: seq<Move>)
    requires Run(Initial(), before).Some? && Run(Run(Initial(), before).value, after).Some?
    requires Run(Initial(), before).value.fates.leaked != []
    ensures Run(Run(Initial(), before).value, after).value.pending > 0
  {
    StartsEmpty();
    RunKeeps(Initial(), before);
    var s := Run(Initial(), before).value;
    RunKeeps(s, after);
  }

  // ---- Which fate ----

  function LaneAfter(kind: LaneKind, l: Lane, actions: seq<Action>): Option<Lane>
    decreases |actions|
  {
    if actions == [] then Some(l)
    else if Enabled(kind, l, actions[0]) then LaneAfter(kind, Step(kind, l, actions[0]).lane, actions[1..])
    else None
  }

  lemma {:induction false} SettlingStays(kind: LaneKind, l: Lane, actions: seq<Action>, ops: seq<OpId>, ok: bool)
    requires l.writer == Settling(ops, ok) && LaneAfter(kind, l, actions).Some?
    requires Settle !in actions && StopWriter !in actions
    ensures LaneAfter(kind, l, actions).value.writer == Settling(ops, ok)
    decreases |actions|
  {
    if actions != [] {
      assert actions[0] in actions;
      SettlingStays(kind, Step(kind, l, actions[0]).lane, actions[1..], ops, ok);
    }
  }

  /**
   The operations of a batch count as written when its write went well and as failed when it did not, whatever the
   other stages do before the batch is settled.
   */
  lemma {:induction false} SettledAsWritten(kind: LaneKind, l: Lane, ok: bool, between: seq<Action>)
    requires Enabled(kind, l, WriteEnds(ok)) && Settle !in between && StopWriter !in between
    requires LaneAfter(kind, Step(kind, l, WriteEnds(ok)).lane, between).Some?
    ensures var u := LaneAfter(kind, Step(kind, l, WriteEnds(ok)).lane, between).value;
            && Enabled(kind, u, Settle)
            && var f := Step(kind, u, Settle).fates;
               && f.written == (if ok then l.writer.batch else []) && f.failed == (if ok then [] else l.writer.batch)
               && f.rejected == [] && f.leaked == []
  {
    SettlingStays(kind, Step(kind, l, WriteEnds(ok)).lane, between, l.writer.batch, ok);
  }

  /** Nothing else is written; a worker fails its own operation, and a sender only gives up a closed or full queue. */
  lemma OtherFates(kind: LaneKind, l: Lane, a: Action)
    requires Enabled(kind, l, a) && !a.Settle?
    ensures var f := Step(kind, l, a).fates;
            && f.written == []
            && f.failed == (if a.EncodeFails? || a.DropEncoded? then [l.workers[a.w].op] else [])
            && f.rejected == (if a.Reject? then [l.sending[a.i].op] else [])
            && (a.Reject? ==> (forall w :: w in l.workers ==> w.Quit?)
                              || (l.sending[a.i].nowait && |l.ingress| >= if kind.Index? then 32 else 64))
  {
  }

  // ---- Bounds ----

  /** What a lane can hold: 4 workers or one, 64 operations or 32 at the ingress, batches of 1 to 128. */
  ghost predicate LaneBounded(kind: LaneKind, l: Lane) {
    && |l.workers| == (if kind.Index? then 1 else 4)
    && |l.ingress| <= (if kind.Index? then 32 else 64)
    && |l.encoded| <= (if kind.Index? then 0 else 8)
    && |l.batches| <= (if kind.Index? then 32 else 2)
    && |Gathered(l.coalescer)| <= (if kind.Index? then 0 else 128)
    && (forall i :: 0 <= i < |l.batches| ==> BatchBounded(kind, l.batches[i]))
    && (l.writer.Writing? || l.writer.Settling? ==> BatchBounded(kind, l.writer.batch))
  }

  /** The index lane writes its operations one by one. */
  predicate BatchBounded(kind: LaneKind, batch: seq<OpId>) {
    1 <= |batch| <= if kind.Index? then 1 else 128
  }

  lemma QueueBounded(kind: LaneKind, l: Lane, a: Action)
    requires LaneBounded(kind, l) && Enabled(kind, l, a)
    requires a.Submit? || a.Deliver? || a.Reject? || a.TakeOp? || a.EncodeFails? || a.SendEncoded? || a.Gather? || a.SendBatch?
    ensures LaneBounded(kind, Step(kind, l, a).lane)
  {
  }

  lemma StepBounded(kind: LaneKind, l: Lane, a: Action)
    requires LaneBounded(kind, l) && Enabled(kind, l, a)
    ensures LaneBounded(kind, Step(kind, l, a).lane)
  {
    match a
    case TakeBatch =>
    case WriteEnds(_) =>
    case Settle =>
    case DropEncoded(_) =>
    case DropBatch =>
    case StopWorker(_) =>
    case StopCoalescer =>
    case StopWriter =>
    case _ => QueueBounded(kind, l, a);
  }

  ghost predicate AllBounded(s: State) {
    LaneBounded(Blocks, s.blocks) && LaneBounded(History, s.history) && LaneBounded(Index, s.index)
  }

  lemma {:induction false} RunBounded(s: State, moves: seq<Move>)
    requires AllBounded(s) && Run(s, moves).Some?
    ensures AllBounded(Run(s, moves).value)
    decreases |moves|
  {
    if moves != [] {
      StepBounded(moves[0].kind, s.Of(moves[0].kind), moves[0].action);
      RunBounded(Advance(s, moves[0]), moves[1..]);
    }
  }

  /** So much is in a lane at most, on every run. */
  lemma {:induction false} LanesBounded(moves: seq<Move>)
    requires Run(Initial(), moves).Some?
    ensures AllBounded(Run(Initial(), moves).value)
  {
    RunBounded(Initial(), moves);
  }
}
