/**
 A block's markets are applied by concurrent tasks that share the index (src/indexer/processor.rs):
 every interleaving of their store calls, and every order of merging their write sets, gives the memory
 and the tables of the serial run.
 */
module Parallel {
  import opened Ints
  import opened WriteSets
  import opened Books
  import opened OrderIndex
  import opened Processor
  import opened Mirror

  // ---- A call as a read of its market followed by a write to it ----

  datatype OrderEffect =
    | Keep
    | Add(order: StoredOrder)
    | Replace(id: OrderUuid, order: StoredOrder)
    | Remove(id: OrderUuid, order: StoredOrder)

  datatype Holding = Holding(vault: string, amount: u64)

  datatype Effect = Effect(book: Option<Book>, last: Option<u64>, order: OrderEffect, holding: Option<Holding>)

  const NOTHING := Effect(None, None, Keep, None)

  function OrderEffectOf(o: Orders, spot: Spot, op: OrderOp): OrderEffect {
    if op.Insert? then
      if op.order.Hot() then Add(op.order) else Keep
    else
      match Find(o, spot, op.chain)
      case None => Keep
      case Some(id) =>
        var s := Changed(o.orders[id], op);
        if s.Hot() then Replace(id, s) else Remove(id, s)
  }

  function EffectOf(m: Mem, spot: Spot, op: Op): Effect {
    match op
    case SkipIfKnown(_, _) => NOTHING
    case SkipIfHydrated(_) => NOTHING
    case AskNode(_) => NOTHING
    case Commit(found) =>
      (match found
       case None => NOTHING
       case Some(h) => NOTHING.(book := Some(HydrateBook(BookAt(m.books, spot), h.book, h.last))))
    case OnBook(b, blockNum) =>
      if EditOf(b).None? then NOTHING else NOTHING.(book := Some(OpBook(BookAt(m.books, spot), b, blockNum)))
    case OnOrders(o) => NOTHING.(order := OrderEffectOf(m.orders, spot, o))
    case RecordTrade(price) => NOTHING.(last := Some(price))
    case VaultFill(chain, side, amount) =>
      match VaultOfOrder(m, spot, chain)
      case None => NOTHING
      case Some(vault) =>
        if amount == 0 then NOTHING
        else NOTHING.(holding := Some(Holding(vault, NextHolding(HoldingAt(m.holdings, vault, spot), side, amount))))
  }

  function OrdersAfter(orders: map<OrderUuid, StoredOrder>, e: OrderEffect): map<OrderUuid, StoredOrder> {
    match e
    case Keep => orders
    case Add(s) => orders[s.id := s]
    case Replace(id, s) => orders[id := s]
    case Remove(id, _) => orders - {id}
  }

  function IdsAfter(byId: map<OnchainId, OrderUuid>, e: OrderEffect): map<OnchainId, OrderUuid> {
    match e
    case Add(s) => byId[s.Key() := s.id]
    case Remove(_, s) => byId - {s.Key()}
    case _ => byId
  }

  function UsersAfter(byUser: map<string, set<OrderUuid>>, e: OrderEffect): map<string, set<OrderUuid>> {
    match e
    case Add(s) => WithUser(byUser, s.UserKey(), s.id)
    case Remove(id, s) => WithoutUser(byUser, s.UserKey(), id)
    case _ => byUser
  }

  function PerformOrder(o: Orders, e: OrderEffect): Orders {
    Orders(OrdersAfter(o.orders, e), IdsAfter(o.byId, e), UsersAfter(o.byUser, e))
  }

  function PerformHolding(holdings: map<string, map<Spot, u64>>, spot: Spot, e: Option<Holding>): map<string, map<Spot, u64>> {
    match e
    case None => holdings
    case Some(h) => holdings[h.vault := SetAmount(Get(holdings, h.vault).GetOr(map[]), spot, h.amount)]
  }

  function PerformAt<V>(m: map<Spot, V>, spot: Spot, v: Option<V>): map<Spot, V> {
    match v case None => m case Some(x) => m[spot := x]
  }

  function Perform(m: Mem, spot: Spot, e: Effect): Mem {
    Mem(PerformAt(m.books, spot, e.book), PerformAt(m.last, spot, e.last), PerformOrder(m.orders, e.order),
        m.vaultOf, PerformHolding(m.holdings, spot, e.holding))
  }

  lemma CallPerforms(m: Mem, spot: Spot, op: Op)
    ensures OpMem(m, spot, op) == Perform(m, spot, EffectOf(m, spot, op))
  {
  }

  // ---- Well-formed calls and ids ----

  /** A call inserts orders of its own market only, under the id derived from the composite id. */
  predicate WellFormed(spot: Spot, op: Op) {
    op.OnOrders? && op.order.Insert? ==> op.order.order.spot == spot && op.order.order.id == V5(spot, op.order.order.chain)
  }

  ghost predicate AllWellFormed(spot: Spot, calls: seq<Op>) {
    forall i :: 0 <= i < |calls| ==> WellFormed(spot, calls[i])
  }

  lemma CallsWellFormed(spot: Spot, blockNum: u64, e: MarketEvent)
    ensures AllWellFormed(spot, Calls(spot, blockNum, e))
  {
  }

  /** Composite ids lead to derived ids, and orders sit in the market their id names. */
  ghost predicate IdsDerived(o: Orders) {
    && (forall k :: k in o.byId ==> o.byId[k] == V5(k.spot, k.chain))
    && (forall id :: id in o.orders ==> o.orders[id].id == id && id == V5(o.orders[id].spot, o.orders[id].chain))
  }

  ghost predicate EffectIn(spot: Spot, e: OrderEffect) {
    match e
    case Keep => true
    case Add(s) => s.spot == spot && s.id == V5(spot, s.chain)
    case Replace(id, s) => s.spot == spot && s.id == id && id == V5(spot, s.chain)
    case Remove(id, s) => s.spot == spot && s.id == id && id == V5(spot, s.chain)
  }

  lemma EffectInMarket(m: Mem, spot: Spot, op: Op)
    requires IdsDerived(m.orders) && WellFormed(spot, op)
    ensures EffectIn(spot, EffectOf(m, spot, op).order)
  {
  }

  lemma DerivedKept(m: Mem, spot: Spot, op: Op)
    requires IdsDerived(m.orders) && WellFormed(spot, op)
    ensures IdsDerived(OpMem(m, spot, op).orders)
  {
    EffectInMarket(m, spot, op);
    CallPerforms(m, spot, op);
  }

  // ---- Calls of different markets commute ----

  /** Everything a call of this market reads. */
  ghost predicate SameMarket(m: Mem, n: Mem, spot: Spot) {
    && BookAt(m.books, spot) == BookAt(n.books, spot)
    && Get(m.last, spot) == Get(n.last, spot)
    && m.vaultOf == n.vaultOf
    && (forall chain :: Get(m.orders.byId, OnchainId(spot, chain)) == Get(n.orders.byId, OnchainId(spot, chain)))
    && (forall chain :: Get(m.orders.orders, V5(spot, chain)) == Get(n.orders.orders, V5(spot, chain)))
    && (forall vault :: HoldingAt(m.holdings, vault, spot) == HoldingAt(n.holdings, vault, spot))
  }

  lemma FindSame(m: Mem, n: Mem, spot: Spot, chain: string)
    requires SameMarket(m, n, spot) && IdsDerived(m.orders) && IdsDerived(n.orders)
    ensures Find(m.orders, spot, chain) == Find(n.orders, spot, chain)
    ensures Find(m.orders, spot, chain).Some?
            ==> m.orders.orders[Find(m.orders, spot, chain).value] == n.orders.orders[Find(m.orders, spot, chain).value]
  {
    assert Get(m.orders.byId, OnchainId(spot, chain)) == Get(n.orders.byId, OnchainId(spot, chain));
    assert Get(m.orders.orders, V5(spot, chain)) == Get(n.orders.orders, V5(spot, chain));
  }

  lemma SameOrderCall(m: Mem, n: Mem, spot: Spot, o: OrderOp, d: Delta)
    requires SameMarket(m, n, spot) && IdsDerived(m.orders) && IdsDerived(n.orders)
    ensures EffectOf(m, spot, OnOrders(o)) == EffectOf(n, spot, OnOrders(o))
    ensures OpDelta(d, m, spot, OnOrders(o)) == OpDelta(d, n, spot, OnOrders(o))
  {
    if !o.Insert? {
      FindSame(m, n, spot, o.chain);
    }
  }

  lemma SameVaultCall(m: Mem, n: Mem, spot: Spot, op: Op, d: Delta)
    requires SameMarket(m, n, spot) && IdsDerived(m.orders) && IdsDerived(n.orders) && op.VaultFill?
    ensures EffectOf(m, spot, op) == EffectOf(n, spot, op) && OpDelta(d, m, spot, op) == OpDelta(d, n, spot, op)
  {
    FindSame(m, n, spot, op.chain);
    var vault := VaultOfOrder(m, spot, op.chain);
    assert vault == VaultOfOrder(n, spot, op.chain);
    if vault.Some? {
      assert HoldingAt(m.holdings, vault.value, spot) == HoldingAt(n.holdings, vault.value, spot);
    }
  }

  /** A call does, collects, skips and learns the same in two memories that agree on its market. */
  lemma SameMarketSameCall(m: Mem, n: Mem, spot: Spot, op: Op, d: Delta)
    requires SameMarket(m, n, spot) && IdsDerived(m.orders) && IdsDerived(n.orders)
    ensures EffectOf(m, spot, op) == EffectOf(n, spot, op)
    ensures OpDelta(d, m, spot, op) == OpDelta(d, n, spot, op)
    ensures Skipped(m, spot, op) == Skipped(n, spot, op) && Learned(m, spot, op) == Learned(n, spot, op)
  {
    match op {
      case SkipIfKnown(chain, _) =>
        assert Get(m.orders.byId, OnchainId(spot, chain)) == Get(n.orders.byId, OnchainId(spot, chain));
      case SkipIfHydrated(_) =>
      case AskNode(_) =>
      case Commit(_) =>
      case OnBook(_, _) =>
      case OnOrders(o) => SameOrderCall(m, n, spot, o, d);
      case RecordTrade(_) =>
      case VaultFill(_, _, _) => SameVaultCall(m, n, spot, op, d);
    }
  }

  lemma OtherMarketOrders(o: Orders, spot: Spot, e: OrderEffect, other: Spot)
    requires EffectIn(spot, e) && other != spot
    ensures var after := PerformOrder(o, e);
            && (forall chain :: Get(after.byId, OnchainId(other, chain)) == Get(o.byId, OnchainId(other, chain)))
            && (forall chain :: Get(after.orders, V5(other, chain)) == Get(o.orders, V5(other, chain)))
  {
  }

  /** A call leaves every other market alone. */
  lemma OtherMarketSame(m: Mem, spot: Spot, op: Op, other: Spot)
    requires IdsDerived(m.orders) && WellFormed(spot, op) && other != spot
    ensures SameMarket(m, OpMem(m, spot, op), other)
  {
    CallPerforms(m, spot, op);
    EffectInMarket(m, spot, op);
    var e := EffectOf(m, spot, op);
    OtherMarketOrders(m.orders, spot, e.order, other);
    forall vault
      ensures HoldingAt(PerformHolding(m.holdings, spot, e.holding), vault, other) == HoldingAt(m.holdings, vault, other)
    {
      if e.holding.Some? {
        HoldingSet(m.holdings, e.holding.value.vault, spot, e.holding.value.amount, vault, other);
      }
    }
  }

  lemma OrderMapsCommute(orders: map<OrderUuid, StoredOrder>, s: Spot, e: OrderEffect, t: Spot, f: OrderEffect)
    requires s != t && EffectIn(s, e) && EffectIn(t, f)
    ensures OrdersAfter(OrdersAfter(orders, e), f) == OrdersAfter(OrdersAfter(orders, f), e)
  {
  }

  lemma IdMapsCommute(byId: map<OnchainId, OrderUuid>, s: Spot, e: OrderEffect, t: Spot, f: OrderEffect)
    requires s != t && EffectIn(s, e) && EffectIn(t, f)
    ensures IdsAfter(IdsAfter(byId, e), f) == IdsAfter(IdsAfter(byId, f), e)
  {
  }

  lemma ListingsCommute(byUser: map<string, set<OrderUuid>>, u: string, i: OrderUuid, v: string, j: OrderUuid)
    ensures WithUser(WithUser(byUser, u, i), v, j) == WithUser(WithUser(byUser, v, j), u, i)
  {
    if u == v {
      var ids := Get(byUser, u).GetOr({});
      assert ids + {i} + {j} == ids + {j} + {i};
    }
  }

  lemma UnlistingsCommute(byUser: map<string, set<OrderUuid>>, u: string, i: OrderUuid, v: string, j: OrderUuid)
    ensures WithoutUser(WithoutUser(byUser, u, i), v, j) == WithoutUser(WithoutUser(byUser, v, j), u, i)
  {
    if u == v && u in byUser {
      assert byUser[u] - {i} - {j} == byUser[u] - {j} - {i};
    }
  }

  lemma UnlistingCommutes(byUser: map<string, set<OrderUuid>>, u: string, i: OrderUuid, v: string, j: OrderUuid)
    requires i != j
    ensures WithoutUser(WithUser(byUser, u, i), v, j) == WithUser(WithoutUser(byUser, v, j), u, i)
  {
    if u == v {
      var ids := Get(byUser, u).GetOr({});
      assert (ids + {i}) - {j} == (ids - {j}) + {i};
      assert u !in byUser ==> ids - {j} == ids;
    }
  }

  lemma UserMapsCommute(byUser: map<string, set<OrderUuid>>, s: Spot, e: OrderEffect, t: Spot, f: OrderEffect)
    requires s != t && EffectIn(s, e) && EffectIn(t, f)
    ensures UsersAfter(UsersAfter(byUser, e), f) == UsersAfter(UsersAfter(byUser, f), e)
  {
    match (e, f) {
      case (Add(x), Add(y)) => ListingsCommute(byUser, x.UserKey(), x.id, y.UserKey(), y.id);
      case (Add(x), Remove(j, y)) => UnlistingCommutes(byUser, x.UserKey(), x.id, y.UserKey(), j);
      case (Remove(i, x), Add(y)) => UnlistingCommutes(byUser, y.UserKey(), y.id, x.UserKey(), i);
      case (Remove(i, x), Remove(j, y)) => UnlistingsCommute(byUser, x.UserKey(), i, y.UserKey(), j);
      case _ =>
    }
  }

  lemma AmountsCommute(held: map<Spot, u64>, s: Spot, a: u64, t: Spot, b: u64)
    requires s != t
    ensures SetAmount(SetAmount(held, s, a), t, b) == SetAmount(SetAmount(held, t, b), s, a)
  {
  }

  lemma HoldingsCommute(h: map<string, map<Spot, u64>>, s: Spot, e: Option<Holding>, t: Spot, f: Option<Holding>)
    requires s != t
    ensures PerformHolding(PerformHolding(h, s, e), t, f) == PerformHolding(PerformHolding(h, t, f), s, e)
  {
    if e.Some? && f.Some? && e.value.vault == f.value.vault {
      AmountsCommute(Get(h, e.value.vault).GetOr(map[]), s, e.value.amount, t, f.value.amount);
    }
  }

  lemma EffectsCommute(m: Mem, s: Spot, e: Effect, t: Spot, f: Effect)
    requires s != t && EffectIn(s, e.order) && EffectIn(t, f.order)
    ensures Perform(Perform(m, s, e), t, f) == Perform(Perform(m, t, f), s, e)
  {
    OrderMapsCommute(m.orders.orders, s, e.order, t, f.order);
    IdMapsCommute(m.orders.byId, s, e.order, t, f.order);
    UserMapsCommute(m.orders.byUser, s, e.order, t, f.order);
    HoldingsCommute(m.holdings, s, e.holding, t, f.holding);
  }

  /** Two calls of different markets can be swapped: same memory, same collected rows, same skips and answers. */
  lemma CallsCommute(m: Mem, s: Spot, a: Op, t: Spot, b: Op, d: Delta)
    requires s != t && IdsDerived(m.orders) && WellFormed(s, a) && WellFormed(t, b)
    ensures OpMem(OpMem(m, s, a), t, b) == OpMem(OpMem(m, t, b), s, a)
    ensures OpDelta(d, OpMem(m, t, b), s, a) == OpDelta(d, m, s, a)
    ensures Skipped(OpMem(m, t, b), s, a) == Skipped(m, s, a) && Learned(OpMem(m, t, b), s, a) == Learned(m, s, a)
  {
    var ma, mb := OpMem(m, s, a), OpMem(m, t, b);
    DerivedKept(m, s, a);
    DerivedKept(m, t, b);
    OtherMarketSame(m, s, a, t);
    OtherMarketSame(m, t, b, s);
    SameMarketSameCall(m, ma, t, b, d);
    SameMarketSameCall(m, mb, s, a, d);
    EffectInMarket(m, s, a);
    EffectInMarket(m, t, b);
    EffectsCommute(m, s, EffectOf(m, s, a), t, EffectOf(m, t, b));
    CallPerforms(m, s, a);
    CallPerforms(m, t, b);
    CallPerforms(ma, t, b);
    CallPerforms(mb, s, a);
  }

  // ---- Tasks and schedules ----

  /** One market's task: the calls left of the event in hand, the events not yet started, its write set. */
  datatype Task = Task(spot: Spot, calls: seq<Op>, events: seq<MarketEvent>, delta: Delta) {
    predicate Done() { calls == [] && events == [] }

    ghost predicate Valid() { AllWellFormed(spot, calls) }
  }

  datatype Point = Point(mem: Mem, task: Task)

  /** The task's next step: start an event, or make one call. */
  function Advance(m: Mem, t: Task, blockNum: u64): (r: Point)
    ensures !t.Done() ==> |r.task.events| < |t.events|
                          || (|r.task.events| == |t.events| && |r.task.calls| < |t.calls|)
    ensures r.task.spot == t.spot
  {
    if t.Done() then Point(m, t)
    else if t.calls == [] then
      Point(m, t.(calls := Calls(t.spot, blockNum, t.events[0]), events := t.events[1..]))
    else
      Point(OpMem(m, t.spot, t.calls[0]),
            t.(calls := RestAfter(m, t.spot, t.calls), delta := OpDelta(t.delta, m, t.spot, t.calls[0])))
  }

  /** The task run to its end without interruption. */
  function Finish(m: Mem, t: Task, blockNum: u64): Point
    decreases |t.events|, |t.calls|
  {
    if t.Done() then Point(m, t)
    else
      var p := Advance(m, t, blockNum);
      Finish(p.mem, p.task, blockNum)
  }

  datatype Conf = Conf(mem: Mem, tasks: seq<Task>)

  ghost predicate ValidConf(c: Conf) {
    && IdsDerived(c.mem.orders)
    && (forall i :: 0 <= i < |c.tasks| ==> c.tasks[i].Valid())
    && (forall i, j :: 0 <= i < j < |c.tasks| ==> c.tasks[i].spot != c.tasks[j].spot)
  }

  function Step(c: Conf, i: nat, blockNum: u64): Conf {
    if i >= |c.tasks| then c
    else
      var p := Advance(c.mem, c.tasks[i], blockNum);
      Conf(p.mem, c.tasks[i := p.task])
  }

  /** A schedule says which market moves at each step. */
  function RunSchedule(c: Conf, schedule: seq<nat>, blockNum: u64): Conf {
    if schedule == [] then c
    else Step(RunSchedule(c, schedule[..|schedule| - 1], blockNum), schedule[|schedule| - 1], blockNum)
  }

  ghost predicate Finished(c: Conf) {
    forall i :: 0 <= i < |c.tasks| ==> c.tasks[i].Done()
  }

  /** The serial run: task after task, from task `i` on. */
  function Serial(c: Conf, i: nat, blockNum: u64): Conf
    requires i <= |c.tasks|
    decreases |c.tasks| - i
  {
    if i == |c.tasks| then c
    else
      var p := Finish(c.mem, c.tasks[i], blockNum);
      Serial(Conf(p.mem, c.tasks[i := p.task]), i + 1, blockNum)
  }

  lemma AdvanceValid(m: Mem, t: Task, blockNum: u64)
    requires IdsDerived(m.orders) && t.Valid()
    ensures IdsDerived(Advance(m, t, blockNum).mem.orders) && Advance(m, t, blockNum).task.Valid()
  {
    if !t.Done() {
      if t.calls == [] {
        CallsWellFormed(t.spot, blockNum, t.events[0]);
      } else {
        DerivedKept(m, t.spot, t.calls[0]);
      }
    }
  }

  lemma AdvanceCommutes(m: Mem, t: Task, u: Task, blockNum: u64)
    requires IdsDerived(m.orders) && t.Valid() && u.Valid() && t.spot != u.spot
    ensures var p, q := Advance(m, t, blockNum), Advance(m, u, blockNum);
            && Advance(q.mem, t, blockNum).task == p.task
            && Advance(p.mem, u, blockNum).task == q.task
            && Advance(q.mem, t, blockNum).mem == Advance(p.mem, u, blockNum).mem
  {
    if t.calls != [] && u.calls != [] {
      CallsCommute(m, t.spot, t.calls[0], u.spot, u.calls[0], t.delta);
      CallsCommute(m, u.spot, u.calls[0], t.spot, t.calls[0], u.delta);
    }
  }

  /** A step of one task can be moved after the whole run of another. */
  lemma {:induction false} FinishCommutes(m: Mem, t: Task, u: Task, blockNum: u64)
    requires IdsDerived(m.orders) && t.Valid() && u.Valid() && t.spot != u.spot
    ensures var p, q := Finish(m, t, blockNum), Advance(m, u, blockNum);
            && Finish(q.mem, t, blockNum).task == p.task
            && Advance(p.mem, u, blockNum).task == q.task
            && Finish(q.mem, t, blockNum).mem == Advance(p.mem, u, blockNum).mem
    decreases |t.events|, |t.calls|
  {
    if !t.Done() {
      var p := Advance(m, t, blockNum);
      AdvanceValid(m, t, blockNum);
      AdvanceCommutes(m, t, u, blockNum);
      FinishCommutes(p.mem, p.task, u, blockNum);
    }
  }

  lemma {:induction false} FinishValid(m: Mem, t: Task, blockNum: u64)
    requires IdsDerived(m.orders) && t.Valid()
    ensures var p := Finish(m, t, blockNum);
            IdsDerived(p.mem.orders) && p.task.Valid() && p.task.Done() && p.task.spot == t.spot
    decreases |t.events|, |t.calls|
  {
    if !t.Done() {
      AdvanceValid(m, t, blockNum);
      FinishValid(Advance(m, t, blockNum).mem, Advance(m, t, blockNum).task, blockNum);
    }
  }

  lemma StepValid(c: Conf, j: nat, blockNum: u64)
    requires ValidConf(c)
    ensures ValidConf(Step(c, j, blockNum)) && |Step(c, j, blockNum).tasks| == |c.tasks|
  {
    if j < |c.tasks| {
      AdvanceValid(c.mem, c.tasks[j], blockNum);
    }
  }

  /** Any single step leaves the outcome of completing the run serially unchanged. */
  lemma {:induction false} StepKeepsSerial(c: Conf, i: nat, j: nat, blockNum: u64)
    requires ValidConf(c) && i <= j < |c.tasks|
    ensures Serial(Step(c, j, blockNum), i, blockNum) == Serial(c, i, blockNum)
    decreases j - i
  {
    var p := Finish(c.mem, c.tasks[i], blockNum);
    var next := Conf(p.mem, c.tasks[i := p.task]);
    if i == j {
      if !c.tasks[j].Done() {
        var q := Advance(c.mem, c.tasks[j], blockNum);
        assert c.tasks[i := q.task][i := p.task] == c.tasks[i := p.task];
      } else {
        assert c.tasks[j := c.tasks[j]] == c.tasks;
      }
    } else {
      FinishCommutes(c.mem, c.tasks[i], c.tasks[j], blockNum);
      FinishValid(c.mem, c.tasks[i], blockNum);
      var q := Advance(c.mem, c.tasks[j], blockNum);
      assert c.tasks[j := q.task][i := p.task] == c.tasks[i := p.task][j := q.task];
      assert ValidConf(next);
      StepKeepsSerial(next, i + 1, j, blockNum);
    }
  }

  lemma {:induction false} FinishedIsSerial(c: Conf, i: nat, blockNum: u64)
    requires Finished(c) && i <= |c.tasks|
    ensures Serial(c, i, blockNum) == c
    decreases |c.tasks| - i
  {
    if i < |c.tasks| {
      assert c.tasks[i := c.tasks[i]] == c.tasks;
      FinishedIsSerial(c, i + 1, blockNum);
    }
  }

  lemma {:induction false} ScheduleKeepsSerial(c: Conf, schedule: seq<nat>, blockNum: u64)
    requires ValidConf(c)
    ensures var e := RunSchedule(c, schedule, blockNum);
            ValidConf(e) && |e.tasks| == |c.tasks| && Serial(e, 0, blockNum) == Serial(c, 0, blockNum)
  {
    if schedule != [] {
      ScheduleKeepsSerial(c, schedule[..|schedule| - 1], blockNum);
      var e := RunSchedule(c, schedule[..|schedule| - 1], blockNum);
      var j := schedule[|schedule| - 1];
      StepValid(e, j, blockNum);
      if j < |e.tasks| {
        StepKeepsSerial(e, 0, j, blockNum);
      }
    }
  }

  /** Every schedule that runs all tasks to their end gives the serial memory and the serial write sets. */
  lemma {:induction false} AnyScheduleIsSerial(c: Conf, schedule: seq<nat>, blockNum: u64)
    requires ValidConf(c) && Finished(RunSchedule(c, schedule, blockNum))
    ensures RunSchedule(c, schedule, blockNum) == Serial(c, 0, blockNum)
  {
    ScheduleKeepsSerial(c, schedule, blockNum);
    FinishedIsSerial(RunSchedule(c, schedule, blockNum), 0, blockNum);
  }

  // ---- A task run alone is the sequential event loop ----

  lemma {:induction false} FinishCalls(m: Mem, t: Task, blockNum: u64)
    ensures var x := RunCalls(Exec(m, t.delta), t.spot, t.calls);
            Finish(m, t, blockNum) == Finish(x.mem, t.(calls := [], delta := x.delta), blockNum)
    decreases |t.calls|
  {
    if t.calls != [] {
      FinishCalls(Advance(m, t, blockNum).mem, Advance(m, t, blockNum).task, blockNum);
    }
  }

  lemma {:induction false} RunAppend(x: Exec, spot: Spot, blockNum: u64, events: seq<MarketEvent>, e: MarketEvent)
    ensures RunEvents(x, spot, blockNum, events + [e]) == RunEvent(RunEvents(x, spot, blockNum, events), spot, blockNum, e)
  {
    assert (events + [e])[..|events|] == events;
  }

  lemma {:induction false} RunFirst(x: Exec, spot: Spot, blockNum: u64, first: MarketEvent, rest: seq<MarketEvent>)
    ensures RunEvents(x, spot, blockNum, [first] + rest) ==
            RunEvents(RunEvent(x, spot, blockNum, first), spot, blockNum, rest)
  {
    if rest == [] {
      assert [first] + rest == [] + [first];
      RunAppend(x, spot, blockNum, [], first);
    } else {
      var some, last := rest[..|rest| - 1], rest[|rest| - 1];
      assert rest == some + [last] && [first] + rest == ([first] + some) + [last];
      RunFirst(x, spot, blockNum, first, some);
      RunAppend(x, spot, blockNum, [first] + some, last);
      RunAppend(RunEvent(x, spot, blockNum, first), spot, blockNum, some, last);
    }
  }

  lemma {:induction false} FinishIsRunEvents(m: Mem, t: Task, blockNum: u64)
    requires t.calls == []
    ensures var x := RunEvents(Exec(m, t.delta), t.spot, blockNum, t.events);
            Finish(m, t, blockNum) == Point(x.mem, t.(events := [], delta := x.delta))
    decreases |t.events|
  {
    if t.events != [] {
      var p := Advance(m, t, blockNum);
      FinishCalls(m, p.task, blockNum);
      var x := RunEvent(Exec(m, t.delta), t.spot, blockNum, t.events[0]);
      FinishIsRunEvents(x.mem, t.(events := t.events[1..], delta := x.delta), blockNum);
      assert t.events == [t.events[0]] + t.events[1..];
      RunFirst(Exec(m, t.delta), t.spot, blockNum, t.events[0], t.events[1..]);
    }
  }

  // ---- Merging the write sets ----

  function MarketOf(k: RowKey): Option<Spot> {
    match k
    case MarketKey(_) => None
    case VaultKey(_) => None
    case OrderKey(id) => Some(id.spot)
    case LevelKey(spot, _, _) => Some(spot)
    case BookMetaKey(spot) => Some(spot)
    case LastTradeKey(spot) => Some(spot)
    case HoldingKey(_, spot) => Some(spot)
  }

  /** A task's delta is well formed and names rows of its own market only. */
  ghost predicate Owned(d: Delta, spot: Spot) {
    d.Disjoint() && forall k :: k in d.Keys() ==> MarketOf(k) == Some(spot)
  }

  lemma {:induction false} QuotesOwned(d: Delta, spot: Spot, side: Side, quotes: seq<ChainLevel>)
    requires Owned(d, spot)
    ensures Owned(CollectQuotes(d, spot, side, quotes), spot)
  {
    if quotes != [] {
      QuotesOwned(d, spot, side, quotes[..|quotes| - 1]);
    }
  }

  lemma HydrationOwned(d: Delta, spot: Spot, b: Book, chain: ChainBook, last: Option<u64>)
    requires Owned(d, spot)
    ensures Owned(CollectHydration(d, spot, b, chain, last), spot)
  {
    var dropped := DropAll(DropAll(d, LevelKeys(spot, Buy, b.bids)), LevelKeys(spot, Sell, b.asks));
    QuotesOwned(dropped, spot, Buy, chain.bids);
    QuotesOwned(CollectQuotes(dropped, spot, Buy, chain.bids), spot, Sell, chain.asks);
  }

  lemma OrderOpOwned(d: Delta, o: Orders, spot: Spot, op: OrderOp)
    requires Owned(d, spot) && IdsDerived(o) && WellFormed(spot, OnOrders(op))
    ensures Owned(CollectOrderOp(d, o, spot, op), spot)
  {
  }

  lemma CallOwned(d: Delta, m: Mem, spot: Spot, op: Op)
    requires Owned(d, spot) && IdsDerived(m.orders) && WellFormed(spot, op)
    ensures Owned(OpDelta(d, m, spot, op), spot)
  {
    match op {
      case Commit(found) =>
        if found.Some? {
          HydrationOwned(d, spot, BookAt(m.books, spot), found.value.book, found.value.last);
        }
      case OnOrders(o) => OrderOpOwned(d, m.orders, spot, o);
      case _ =>
    }
  }

  lemma {:induction false} FinishOwned(m: Mem, t: Task, blockNum: u64)
    requires IdsDerived(m.orders) && t.Valid() && Owned(t.delta, t.spot)
    ensures Owned(Finish(m, t, blockNum).task.delta, t.spot)
    decreases |t.events|, |t.calls|
  {
    if !t.Done() {
      AdvanceValid(m, t, blockNum);
      if t.calls != [] {
        CallOwned(t.delta, m, t.spot, t.calls[0]);
      }
      FinishOwned(Advance(m, t, blockNum).mem, Advance(m, t, blockNum).task, blockNum);
    }
  }

  /** The rows after merging the tasks' sets into `base` in the given order, and writing the result. */
  function MergeInOrder(base: Delta, tasks: seq<Task>, order: seq<nat>): Delta
    requires forall i :: 0 <= i < |order| ==> order[i] < |tasks|
  {
    if order == [] then base
    else MergeInOrder(base, tasks, order[..|order| - 1]).Then(tasks[order[|order| - 1]].delta)
  }

  ghost predicate AllOwned(tasks: seq<Task>) {
    && (forall i :: 0 <= i < |tasks| ==> Owned(tasks[i].delta, tasks[i].spot))
    && (forall i, j :: 0 <= i < j < |tasks| ==> tasks[i].spot != tasks[j].spot)
  }

  /** What a delta says about a key it names. */
  function Says(d: Delta, k: RowKey): Option<RowVal>
    requires k in d.Keys()
  {
    if k in d.store then Some(d.store[k]) else None
  }

  lemma ThenAt(a: Delta, d: Delta, rows: Rows, k: RowKey)
    requires d.Disjoint()
    ensures At(a.Then(d), rows, k) == if k in d.Keys() then Says(d, k) else At(a, rows, k)
    ensures At(d, a.Apply(rows), k) == At(a.Then(d), rows, k)
  {
  }

  /** At a row of task `i`'s market, only that task's set matters, whatever the order. */
  lemma {:induction false} MergedAt(base: Delta, tasks: seq<Task>, order: seq<nat>, rows: Rows, i: nat, k: RowKey)
    requires AllOwned(tasks) && i < |tasks| && MarketOf(k) == Some(tasks[i].spot)
    requires forall j :: 0 <= j < |order| ==> order[j] < |tasks|
    ensures At(MergeInOrder(base, tasks, order), rows, k) ==
            if i in order && k in tasks[i].delta.Keys() then Says(tasks[i].delta, k) else At(base, rows, k)
  {
    if order != [] {
      var n := |order| - 1;
      MergedAt(base, tasks, order[..n], rows, i, k);
      var last := order[n];
      assert Owned(tasks[last].delta, tasks[last].spot);
      ThenAt(MergeInOrder(base, tasks, order[..n]), tasks[last].delta, rows, k);
      assert i in order <==> i in order[..n] || i == last by {
        assert order == order[..n] + [last];
      }
      if last != i {
        assert k !in tasks[last].delta.Keys();
      }
    }
  }

  lemma {:induction false} UnownedAt(base: Delta, tasks: seq<Task>, order: seq<nat>, rows: Rows, k: RowKey)
    requires AllOwned(tasks) && forall i :: 0 <= i < |tasks| ==> MarketOf(k) != Some(tasks[i].spot)
    requires forall j :: 0 <= j < |order| ==> order[j] < |tasks|
    ensures At(MergeInOrder(base, tasks, order), rows, k) == At(base, rows, k)
  {
    if order != [] {
      UnownedAt(base, tasks, order[..|order| - 1], rows, k);
      ThenAt(MergeInOrder(base, tasks, order[..|order| - 1]), tasks[order[|order| - 1]].delta, rows, k);
      assert k !in tasks[order[|order| - 1]].delta.Keys();
    }
  }

  /** The order lists every task, once or more. */
  ghost predicate Covers(order: seq<nat>, n: nat) {
    (forall j :: 0 <= j < |order| ==> order[j] < n) && forall i :: 0 <= i < n ==> i in order
  }

  /** The merged set does the same to any tables, in whatever order the tasks' sets are merged. */
  lemma {:induction false} MergeOrderIrrelevant(base: Delta, tasks: seq<Task>, order: seq<nat>, other: seq<nat>, rows: Rows)
    requires AllOwned(tasks) && Covers(order, |tasks|) && Covers(other, |tasks|)
    ensures MergeInOrder(base, tasks, order).Apply(rows) == MergeInOrder(base, tasks, other).Apply(rows)
  {
    forall k
      ensures Get(MergeInOrder(base, tasks, order).Apply(rows), k) == Get(MergeInOrder(base, tasks, other).Apply(rows), k)
    {
      if i: nat :| i < |tasks| && MarketOf(k) == Some(tasks[i].spot) {
        MergedAt(base, tasks, order, rows, i, k);
        MergedAt(base, tasks, other, rows, i, k);
      } else {
        UnownedAt(base, tasks, order, rows, k);
        UnownedAt(base, tasks, other, rows, k);
      }
    }
    SameMaps(MergeInOrder(base, tasks, order).Apply(rows), MergeInOrder(base, tasks, other).Apply(rows));
  }

  /** The method that merges the finished tasks' sets into the block's set. */
  method MergeTaskSets(ws: IndexWriteSet, tasks: seq<Task>, order: seq<nat>)
    requires forall i :: 0 <= i < |order| ==> order[i] < |tasks|
    modifies ws
    ensures ws.Changes() == MergeInOrder(old(ws.Changes()), tasks, order)
    ensures ws.fullReplace == old(ws.fullReplace)
  {
    for n := 0 to |order|
      invariant ws.Changes() == MergeInOrder(old(ws.Changes()), tasks, order[..n])
      invariant ws.fullReplace == old(ws.fullReplace)
    {
      ws.Merge(WriteSet(0, "", false, tasks[order[n]].delta));
      assert order[..n + 1][..n] == order[..n];
    }
    assert order[..|order|] == order;
  }

  // ---- The block as a whole ----

  function Upto(n: nat): seq<nat> {
    seq(n, i => i)
  }

  lemma UptoCovers(n: nat)
    ensures Covers(Upto(n), n)
  {
    forall i | 0 <= i < n
      ensures i in Upto(n)
    {
      assert Upto(n)[i] == i;
    }
  }

  lemma {:induction false} MergePrefix(base: Delta, tasks: seq<Task>, others: seq<Task>, n: nat)
    requires n <= |tasks| && n <= |others| && tasks[..n] == others[..n]
    ensures MergeInOrder(base, tasks, Upto(n)) == MergeInOrder(base, others, Upto(n))
  {
    if n > 0 {
      assert tasks[..n - 1] == tasks[..n][..n - 1] && others[..n - 1] == others[..n][..n - 1];
      MergePrefix(base, tasks, others, n - 1);
      assert Upto(n)[..n - 1] == Upto(n - 1);
      assert tasks[n - 1] == tasks[..n][n - 1] && others[n - 1] == others[..n][n - 1];
    }
  }

  lemma ThenApply(a: Delta, d: Delta, rows: Rows)
    requires d.Disjoint()
    ensures a.Then(d).Apply(rows) == d.Apply(a.Apply(rows))
  {
  }

  ghost predicate Fresh(t: Task) {
    t.calls == [] && t.delta == EMPTY_DELTA
  }

  /** One task, run alone from an empty set. */
  lemma {:induction false} FinishMirrors(merged: Delta, rows: Rows, m: Mem, t: Task, blockNum: u64)
    requires IdsDerived(m.orders) && t.Valid() && Fresh(t) && Mirrors(merged.Apply(rows), m)
    ensures var p := Finish(m, t, blockNum);
            Owned(p.task.delta, t.spot) && Mirrors(merged.Then(p.task.delta).Apply(rows), p.mem)
  {
    FinishOwned(m, t, blockNum);
    FinishIsRunEvents(m, t, blockNum);
    DeltaMirror(merged.Apply(rows), m, t.spot, blockNum, t.events);
    ThenApply(merged, Finish(m, t, blockNum).task.delta, rows);
  }

  lemma {:induction false} SerialMirrors(rows: Rows, base: Delta, c: Conf, i: nat, blockNum: u64)
    requires ValidConf(c) && i <= |c.tasks|
    requires Mirrors(MergeInOrder(base, c.tasks, Upto(i)).Apply(rows), c.mem)
    requires forall j :: i <= j < |c.tasks| ==> Fresh(c.tasks[j])
    requires forall j :: 0 <= j < i ==> Owned(c.tasks[j].delta, c.tasks[j].spot)
    ensures var e := Serial(c, i, blockNum);
            && |e.tasks| == |c.tasks| && AllOwned(e.tasks)
            && Mirrors(MergeInOrder(base, e.tasks, Upto(|c.tasks|)).Apply(rows), e.mem)
    decreases |c.tasks| - i
  {
    if i < |c.tasks| {
      var p := Finish(c.mem, c.tasks[i], blockNum);
      var next := Conf(p.mem, c.tasks[i := p.task]);
      FinishValid(c.mem, c.tasks[i], blockNum);
      FinishMirrors(MergeInOrder(base, c.tasks, Upto(i)), rows, c.mem, c.tasks[i], blockNum);
      MergePrefix(base, c.tasks, next.tasks, i);
      assert Upto(i + 1)[..i] == Upto(i);
      SerialMirrors(rows, base, next, i + 1, blockNum);
    }
  }

  /**
   Parallel apply is serial apply: whatever the interleaving of the tasks' store calls and whatever the
   order in which their sets are merged into `base`, memory and sets are those of the serial run, and the
   merged set turns the old tables into the mirror of the new memory.
   */
  lemma {:induction false} ParallelApply(rows: Rows, base: Delta, c: Conf, schedule: seq<nat>, order: seq<nat>, blockNum: u64)
    requires ValidConf(c) && forall i :: 0 <= i < |c.tasks| ==> Fresh(c.tasks[i])
    requires Mirrors(base.Apply(rows), c.mem)
    requires Finished(RunSchedule(c, schedule, blockNum)) && Covers(order, |c.tasks|)
    ensures var e := RunSchedule(c, schedule, blockNum);
            && e == Serial(c, 0, blockNum)
            && |e.tasks| == |c.tasks|
            && Mirrors(MergeInOrder(base, e.tasks, order).Apply(rows), e.mem)
  {
    AnyScheduleIsSerial(c, schedule, blockNum);
    var e := RunSchedule(c, schedule, blockNum);
    assert MergeInOrder(base, c.tasks, Upto(0)) == base;
    SerialMirrors(rows, base, c, 0, blockNum);
    UptoCovers(|c.tasks|);
    MergeOrderIrrelevant(base, e.tasks, order, Upto(|c.tasks|), rows);
  }
}
