/**
 A block's order events, grouped by market and applied in parallel, do what applying them one by one in
 block order does (src/indexer/processor.rs).
 */
module Grouping {
  import opened Ints
  import opened WriteSets
  import opened OrderIndex
  import opened Processor
  import opened Parallel
  import opened Mirror

  /** An order event with the market it was resolved to; an unresolved one reaches no market. */
  datatype BlockEvent = BlockEvent(spot: Option<Spot>, event: MarketEvent)

  /** One market's events, in block order. */
  function GroupOf(block: seq<BlockEvent>, spot: Spot): seq<MarketEvent> {
    if block == [] then []
    else EventFor(block[0], spot) + GroupOf(block[1..], spot)
  }

  function EventFor(e: BlockEvent, spot: Spot): seq<MarketEvent> {
    if e.spot == Some(spot) then [e.event] else []
  }

  lemma {:induction false} GroupFirst(first: BlockEvent, rest: seq<BlockEvent>, spot: Spot)
    ensures GroupOf([first] + rest, spot) == EventFor(first, spot) + GroupOf(rest, spot)
  {
    assert ([first] + rest)[1..] == rest;
  }

  lemma {:induction false} GroupAppend(block: seq<BlockEvent>, e: BlockEvent, spot: Spot)
    ensures GroupOf(block + [e], spot) == GroupOf(block, spot) + EventFor(e, spot)
  {
    if block == [] {
      assert block + [e] == [e] + [];
      GroupFirst(e, [], spot);
    } else {
      var first, rest := block[0], block[1..];
      assert block == [first] + rest && block + [e] == [first] + (rest + [e]);
      GroupFirst(first, rest, spot);
      GroupFirst(first, rest + [e], spot);
      GroupAppend(rest, e, spot);
    }
  }

  /** Cancellations and updates of orders no market is known for. */
  function Unmapped(block: seq<BlockEvent>): seq<MarketEvent> {
    if block == [] then []
    else
      var rest, e := Unmapped(block[..|block| - 1]), block[|block| - 1];
      if e.spot.None? && (e.event.Cancelled? || e.event.Updated?) then rest + [e.event] else rest
  }

  predicate IsUnmapped(e: BlockEvent) {
    e.spot.None? && (e.event.Cancelled? || e.event.Updated?)
  }

  /** The places of the unmapped events: cancellations and updates without a market, each once and in order. */
  ghost predicate Places(block: seq<BlockEvent>, unmapped: seq<MarketEvent>, at: seq<nat>) {
    && |at| == |unmapped|
    && (forall k :: 0 <= k < |at| ==> at[k] < |block| && IsUnmapped(block[at[k]]) && unmapped[k] == block[at[k]].event)
    && (forall i, j :: 0 <= i < j < |at| ==> at[i] < at[j])
    && (forall p :: 0 <= p < |block| && IsUnmapped(block[p]) ==> p in at)
  }

  lemma PlacesNext(block: seq<BlockEvent>, e: BlockEvent, unmapped: seq<MarketEvent>, at: seq<nat>)
    requires Places(block, unmapped, at)
    ensures if IsUnmapped(e) then Places(block + [e], unmapped + [e.event], at + [|block|]) else Places(block + [e], unmapped, at)
  {
    var all := block + [e];
    var now := if IsUnmapped(e) then at + [|block|] else at;
    forall p | 0 <= p < |all| && IsUnmapped(all[p])
      ensures p in now
    {
      if p < |block| {
        assert IsUnmapped(block[p]) && p in at;
      } else {
        assert now[|at|] == p;
      }
    }
  }

  /** The unmapped events of a block are all of these and nothing else. */
  lemma {:induction false} UnmappedTells(block: seq<BlockEvent>) returns (at: seq<nat>)
    ensures Places(block, Unmapped(block), at)
  {
    at := [];
    if block != [] {
      var rest, e := block[..|block| - 1], block[|block| - 1];
      at := UnmappedTells(rest);
      PlacesNext(rest, e, Unmapped(rest), at);
      assert block == rest + [e];
      if IsUnmapped(e) {
        at := at + [|rest|];
      }
    }
  }

  predicate Named(block: seq<BlockEvent>, spot: Spot) {
    exists e :: e in block && e.spot == Some(spot)
  }

  ghost predicate Grouped(markets: map<Spot, seq<MarketEvent>>, block: seq<BlockEvent>) {
    forall spot :: GroupedAt(markets, block, spot)
  }

  ghost predicate GroupedAt(markets: map<Spot, seq<MarketEvent>>, block: seq<BlockEvent>, spot: Spot) {
    (spot in markets <==> Named(block, spot)) && Get(markets, spot).GetOr([]) == GroupOf(block, spot)
  }

  function Push(markets: map<Spot, seq<MarketEvent>>, spot: Spot, e: MarketEvent): map<Spot, seq<MarketEvent>> {
    markets[spot := Get(markets, spot).GetOr([]) + [e]]
  }

  lemma {:induction false} GroupedNextAt(markets: map<Spot, seq<MarketEvent>>, block: seq<BlockEvent>, e: BlockEvent, spot: Spot)
    requires GroupedAt(markets, block, spot)
    ensures GroupedAt(if e.spot.Some? then Push(markets, e.spot.value, e.event) else markets, block + [e], spot)
  {
    GroupAppend(block, e, spot);
    NamedAppend(block, e, spot);
  }

  lemma GroupedNext(markets: map<Spot, seq<MarketEvent>>, block: seq<BlockEvent>, e: BlockEvent)
    requires Grouped(markets, block)
    ensures Grouped(if e.spot.Some? then Push(markets, e.spot.value, e.event) else markets, block + [e])
  {
    var after := if e.spot.Some? then Push(markets, e.spot.value, e.event) else markets;
    forall spot
      ensures GroupedAt(after, block + [e], spot)
    {
      assert GroupedAt(markets, block, spot);
      GroupedNextAt(markets, block, e, spot);
    }
  }

  /** The grouping of `prepare_block`. */
  method PrepareBlock(block: seq<BlockEvent>) returns (markets: map<Spot, seq<MarketEvent>>, unmapped: seq<MarketEvent>)
    ensures Grouped(markets, block) && unmapped == Unmapped(block)
  {
    markets, unmapped := map[], [];
    for i := 0 to |block|
      invariant Grouped(markets, block[..i]) && unmapped == Unmapped(block[..i])
    {
      var e := block[i];
      assert block[..i + 1] == block[..i] + [e];
      GroupedNext(markets, block[..i], e);
      match e.spot {
        case Some(spot) =>
          var group := if spot in markets then markets[spot] else [];
          markets := markets[spot := group + [e.event]];
        case None =>
          if e.event.Cancelled? || e.event.Updated? {
            unmapped := unmapped + [e.event];
          }
      }
    }
    assert block[..|block|] == block;
  }

  lemma NamedAppend(block: seq<BlockEvent>, e: BlockEvent, spot: Spot)
    ensures Named(block + [e], spot) <==> Named(block, spot) || e.spot == Some(spot)
  {
    if Named(block, spot) {
      var f :| f in block && f.spot == Some(spot);
      assert f in block + [e];
    }
    if e.spot == Some(spot) {
      assert e in block + [e];
    }
  }

  /** Memory after the events one by one, in block order. */
  function RunBlock(m: Mem, blockNum: u64, block: seq<BlockEvent>): Mem
    decreases |block|
  {
    if block == [] then m
    else RunBlock(if block[0].spot.None? then m
                  else RunEvent(Exec(m, EMPTY_DELTA), block[0].spot.value, blockNum, block[0].event).mem,
                  blockNum, block[1..])
  }

  /** The rows collected so far have no influence on memory. */
  lemma {:induction false} MemoryAlone(m: Mem, d: Delta, spot: Spot, calls: seq<Op>)
    ensures RunCalls(Exec(m, d), spot, calls).mem == RunCalls(Exec(m, EMPTY_DELTA), spot, calls).mem
    decreases |calls|
  {
    if calls != [] {
      var rest := RestAfter(m, spot, calls);
      var x, y := OpExec(Exec(m, d), spot, calls[0]), OpExec(Exec(m, EMPTY_DELTA), spot, calls[0]);
      MemoryAlone(x.mem, x.delta, spot, rest);
      MemoryAlone(y.mem, y.delta, spot, rest);
    }
  }

  /** The tasks hold the groups of a block, each at the start of its next event. */
  ghost predicate Holds(c: Conf, block: seq<BlockEvent>) {
    && ValidConf(c)
    && (forall i :: 0 <= i < |c.tasks| ==> c.tasks[i].calls == [] && c.tasks[i].events == GroupOf(block, c.tasks[i].spot))
    && (forall e :: e in block && e.spot.Some? ==> exists i :: 0 <= i < |c.tasks| && c.tasks[i].spot == e.spot.value)
  }

  function AfterCalls(c: Conf, j: nat): Conf
    requires j < |c.tasks|
  {
    var t := c.tasks[j];
    var x := RunCalls(Exec(c.mem, t.delta), t.spot, t.calls);
    Conf(x.mem, c.tasks[j := t.(calls := [], delta := x.delta)])
  }

  /** Completing the event in hand of one task leaves the serial outcome unchanged. */
  lemma {:induction false} CallsKeepSerial(c: Conf, j: nat, blockNum: u64)
    requires ValidConf(c) && j < |c.tasks|
    ensures ValidConf(AfterCalls(c, j)) && Serial(AfterCalls(c, j), 0, blockNum) == Serial(c, 0, blockNum)
    decreases |c.tasks[j].calls|
  {
    var t := c.tasks[j];
    if t.calls == [] {
      assert c.tasks[j := t] == c.tasks;
    } else {
      StepValid(c, j, blockNum);
      StepKeepsSerial(c, 0, j, blockNum);
      var next := Step(c, j, blockNum);
      CallsKeepSerial(next, j, blockNum);
      assert next.tasks[j := AfterCalls(c, j).tasks[j]] == AfterCalls(c, j).tasks;
    }
  }

  /** One whole event of one task. */
  function AfterEvent(c: Conf, j: nat, blockNum: u64): Conf
    requires j < |c.tasks| && c.tasks[j].calls == [] && c.tasks[j].events != []
  {
    var t := c.tasks[j];
    var x := RunEvent(Exec(c.mem, t.delta), t.spot, blockNum, t.events[0]);
    Conf(x.mem, c.tasks[j := t.(events := t.events[1..], delta := x.delta)])
  }

  lemma {:induction false} EventKeepsSerial(c: Conf, j: nat, blockNum: u64)
    requires ValidConf(c) && j < |c.tasks| && c.tasks[j].calls == [] && c.tasks[j].events != []
    ensures ValidConf(AfterEvent(c, j, blockNum))
    ensures Serial(AfterEvent(c, j, blockNum), 0, blockNum) == Serial(c, 0, blockNum)
  {
    StepValid(c, j, blockNum);
    StepKeepsSerial(c, 0, j, blockNum);
    var next := Step(c, j, blockNum);
    CallsKeepSerial(next, j, blockNum);
    assert AfterCalls(next, j).tasks == AfterEvent(c, j, blockNum).tasks;
  }

  lemma {:induction false} EventKeepsHolds(c: Conf, j: nat, blockNum: u64, block: seq<BlockEvent>)
    requires Holds(c, block) && block != [] && j < |c.tasks| && block[0].spot == Some(c.tasks[j].spot)
    ensures c.tasks[j].events != [] && c.tasks[j].events[0] == block[0].event
    ensures Holds(AfterEvent(c, j, blockNum), block[1..])
  {
    var t := c.tasks[j];
    assert t.events == [block[0].event] + GroupOf(block[1..], t.spot);
    EventKeepsSerial(c, j, blockNum);
    var next := AfterEvent(c, j, blockNum);
    forall e | e in block[1..] && e.spot.Some?
      ensures exists i :: 0 <= i < |next.tasks| && next.tasks[i].spot == e.spot.value
    {
      assert e in block;
      var i :| 0 <= i < |c.tasks| && c.tasks[i].spot == e.spot.value;
      assert next.tasks[i].spot == e.spot.value;
    }
    forall i | 0 <= i < |next.tasks|
      ensures next.tasks[i].calls == [] && next.tasks[i].events == GroupOf(block[1..], next.tasks[i].spot)
    {
      if i != j {
        assert c.tasks[i].spot != t.spot;
      }
    }
  }

  lemma {:induction false} EventIsFirst(c: Conf, j: nat, blockNum: u64, block: seq<BlockEvent>)
    requires block != [] && j < |c.tasks| && block[0].spot == Some(c.tasks[j].spot)
    requires c.tasks[j].calls == [] && c.tasks[j].events != [] && c.tasks[j].events[0] == block[0].event
    ensures RunBlock(c.mem, blockNum, block) == RunBlock(AfterEvent(c, j, blockNum).mem, blockNum, block[1..])
  {
    var t := c.tasks[j];
    MemoryAlone(c.mem, t.delta, t.spot, Calls(t.spot, blockNum, t.events[0]));
  }

  /** The serial run of the groups leads to the memory of the block order. */
  lemma {:induction false} SerialIsBlockOrder(c: Conf, blockNum: u64, block: seq<BlockEvent>)
    requires Holds(c, block)
    ensures Serial(c, 0, blockNum).mem == RunBlock(c.mem, blockNum, block)
    decreases |block|
  {
    if block == [] {
      FinishedIsSerial(c, 0, blockNum);
    } else if block[0].spot.None? {
      assert forall e :: e in block[1..] ==> e in block;
      SerialIsBlockOrder(c, blockNum, block[1..]);
    } else {
      assert block[0] in block;
      var j :| 0 <= j < |c.tasks| && c.tasks[j].spot == block[0].spot.value;
      EventKeepsHolds(c, j, blockNum, block);
      EventIsFirst(c, j, blockNum, block);
      EventKeepsSerial(c, j, blockNum);
      SerialIsBlockOrder(AfterEvent(c, j, blockNum), blockNum, block[1..]);
    }
  }

  /**
   Grouped and parallel is block order: whatever the interleaving of the markets' tasks and the order of
   merging their sets, memory is what applying the events one by one in block order gives, and the merged
   set turns the old tables into its mirror.
   */
  lemma {:induction false} ParallelIsBlockOrder(rows: Rows, base: Delta, c: Conf, schedule: seq<nat>, order: seq<nat>, blockNum: u64,
                             block: seq<BlockEvent>)
    requires Holds(c, block) && forall i :: 0 <= i < |c.tasks| ==> Fresh(c.tasks[i])
    requires Mirrors(base.Apply(rows), c.mem)
    requires Finished(RunSchedule(c, schedule, blockNum)) && Covers(order, |c.tasks|)
    ensures var e := RunSchedule(c, schedule, blockNum);
            && e.mem == RunBlock(c.mem, blockNum, block)
            && |e.tasks| == |c.tasks|
            && Mirrors(MergeInOrder(base, e.tasks, order).Apply(rows), RunBlock(c.mem, blockNum, block))
  {
    ParallelApply(rows, base, c, schedule, order, blockNum);
    SerialIsBlockOrder(c, blockNum, block);
  }

  // ---- Unmapped events in a live block ----

  /** A market that is hydrated again, with what the node answers. */
  datatype Rehydration = Rehydration(spot: Spot, node: NodeAnswer)

  /** An unmapped event hydrates every market again, whatever state it is in, unless the block is applied quietly. */
  function Rehydrations(publish: bool, unmapped: seq<MarketEvent>, answers: seq<seq<Rehydration>>): seq<Rehydration>
    requires |unmapped| == |answers|
  {
    if !publish || unmapped == [] then []
    else Rehydrations(publish, unmapped[..|unmapped| - 1], answers[..|answers| - 1]) + answers[|answers| - 1]
  }

  /** A live block asks for what the node answered to its unmapped events, in order; a quiet one for nothing. */
  lemma {:induction false} RehydrationsTell(publish: bool, unmapped: seq<MarketEvent>, answers: seq<seq<Rehydration>>, r: Rehydration)
    requires |unmapped| == |answers|
    ensures r in Rehydrations(publish, unmapped, answers) <==> publish && exists i :: 0 <= i < |answers| && r in answers[i]
  {
    if publish && unmapped != [] {
      var n := |answers| - 1;
      RehydrationsTell(publish, unmapped[..n], answers[..n], r);
      if i :| 0 <= i < |answers| && r in answers[i] {
        assert i < n ==> r in answers[..n][i];
      }
      if i :| 0 <= i < n && r in answers[..n][i] {
        assert r in answers[i];
      }
    }
  }

  function RehydrateOne(x: Exec, r: Rehydration): Exec {
    OpExec(x, r.spot, Commit(HydrationOf(Get(x.mem.last, r.spot), r.node)))
  }

  function Rehydrate(x: Exec, asks: seq<Rehydration>): Exec {
    if asks == [] then x else RehydrateOne(Rehydrate(x, asks[..|asks| - 1]), asks[|asks| - 1])
  }

  lemma {:induction false} RehydrateMirrored(rows: Rows, x: Exec, asks: seq<Rehydration>)
    requires Mirror.Holds(rows, x)
    ensures Mirror.Holds(rows, Rehydrate(x, asks))
  {
    if asks != [] {
      var y, r := Rehydrate(x, asks[..|asks| - 1]), asks[|asks| - 1];
      RehydrateMirrored(rows, x, asks[..|asks| - 1]);
      CallMirrored(rows, y, r.spot, Commit(HydrationOf(Get(y.mem.last, r.spot), r.node)));
    }
  }

  /**
   A live block: its unmapped cancellations and updates rehydrate markets first, into the block's own set, and
   the tasks then run on that memory. Memory is that of the rehydrated markets and then the events in block
   order, and the block's set turns the old tables into its mirror.
   */
  lemma {:induction false} LiveBlockIsBlockOrder(
    rows: Rows, m: Mem, publish: bool, block: seq<BlockEvent>, answers: seq<seq<Rehydration>>,
    c: Conf, schedule: seq<nat>, order: seq<nat>, blockNum: u64)
    requires |answers| == |Unmapped(block)| && Mirrors(rows, m) && Keyed(m.orders.orders)
    requires Holds(c, block) && forall i :: 0 <= i < |c.tasks| ==> Fresh(c.tasks[i])
    requires c.mem == Rehydrate(Exec(m, EMPTY_DELTA), Rehydrations(publish, Unmapped(block), answers)).mem
    requires Finished(RunSchedule(c, schedule, blockNum)) && Covers(order, |c.tasks|)
    ensures var x := Rehydrate(Exec(m, EMPTY_DELTA), Rehydrations(publish, Unmapped(block), answers));
            var e := RunSchedule(c, schedule, blockNum);
            && e.mem == RunBlock(x.mem, blockNum, block)
            && |e.tasks| == |c.tasks|
            && Mirrors(MergeInOrder(x.delta, e.tasks, order).Apply(rows), e.mem)
  {
    var asks := Rehydrations(publish, Unmapped(block), answers);
    assert EMPTY_DELTA.Apply(rows) == rows;
    RehydrateMirrored(rows, Exec(m, EMPTY_DELTA), asks);
    ParallelIsBlockOrder(rows, Rehydrate(Exec(m, EMPTY_DELTA), asks).delta, c, schedule, order, blockNum, block);
  }
}
