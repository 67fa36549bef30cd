/**
 What happens to an order over any run of operations (src/indexer/index_state.rs): its status, its size, what of
 it is filled, and the one entry it leaves in the history, told from the operations alone.
 */
module OrderRuns {
  import opened Ints
  import opened WriteSets
  import opened OrderIndex

  datatype OrderStep = OrderStep(spot: Spot, op: OrderOp)

  /** The hot orders and the history of the ended ones, oldest first. */
  datatype Ledger = Ledger(orders: Orders, history: seq<StoredOrder>)

  function Next(l: Ledger, s: OrderStep): Ledger {
    Ledger(OpOrders(l.orders, s.spot, s.op), l.history + OpHistory(l.orders, s.spot, s.op))
  }

  /** The ledger after the first n steps, from no orders. */
  function RunLedger(steps: seq<OrderStep>, n: nat): Ledger
    requires n <= |steps|
  {
    if n == 0 then Ledger(NO_ORDERS, []) else Next(RunLedger(steps, n - 1), steps[n - 1])
  }

  // ---- One update ----

  /** A cancel, and a fill or amendment that leaves nothing. */
  predicate Ends(op: OrderOp) {
    match op
    case Insert(_) => false
    case Cancel(_) => true
    case Amend(_, _, remaining) => remaining == 0
    case Fill(_, _, remaining, full) => full || remaining == 0
  }

  /** The same order but for size, filled amount and status. */
  predicate SameOrder(s: StoredOrder, t: StoredOrder) {
    && s.id == t.id && s.user == t.user && s.chain == t.chain && s.spot == t.spot
    && s.side == t.side && s.price == t.price && s.caption == t.caption
  }

  /** An order as an update leaves it, but for its status: amendments set the size, fills add to what is filled. */
  ghost predicate UpdatedBy(s: StoredOrder, t: StoredOrder, op: OrderOp) {
    && SameOrder(s, t)
    && t.size == (if op.Amend? then op.newAmount else s.size)
    && t.filled == (if op.Fill? then Clamped(s.filled + op.amount) else s.filled)
  }

  /** An update that ends the order leaves exactly one entry: cancelled after a cancel, filled after anything else. */
  ghost predicate EndedBy(s: StoredOrder, entries: seq<StoredOrder>, op: OrderOp) {
    && |entries| == 1 && UpdatedBy(s, entries[0], op)
    && (entries[0].status == Cancelled <==> op.Cancel?)
    && (entries[0].status == Filled <==> !op.Cancel?)
  }

  ghost predicate StaysBy(s: StoredOrder, t: StoredOrder, op: OrderOp) {
    && UpdatedBy(s, t, op)
    && t.status == if op.Fill? || s.filled > 0 then PartialFilled else Open
  }

  /** What an update of a known order does, to this order and to the others. */
  lemma UpdateTells(o: Orders, spot: Spot, op: OrderOp)
    requires !op.Insert? && OnchainId(spot, op.chain) in o.byId && o.byId[OnchainId(spot, op.chain)] in o.orders
    ensures var id := o.byId[OnchainId(spot, op.chain)];
            var after, entries := OpOrders(o, spot, op).orders, OpHistory(o, spot, op);
            && (forall other :: other != id ==> Get(after, other) == Get(o.orders, other))
            && (if Ends(op) then id !in after && EndedBy(o.orders[id], entries, op)
                else id in after && StaysBy(o.orders[id], after[id], op) && entries == [])
  {
  }

  /** An update of an unknown order does nothing. */
  lemma UnknownTells(o: Orders, spot: Spot, op: OrderOp)
    requires !op.Insert?
    requires OnchainId(spot, op.chain) in o.byId ==> o.byId[OnchainId(spot, op.chain)] !in o.orders
    ensures OpOrders(o, spot, op) == o && OpHistory(o, spot, op) == []
  {
  }

  /** An inserted order is hot, or is the one new entry of the history. */
  lemma InsertTells(o: Orders, spot: Spot, s: StoredOrder)
    ensures var after, entries := OpOrders(o, spot, Insert(s)).orders, OpHistory(o, spot, Insert(s));
            && (forall other :: other != s.id ==> Get(after, other) == Get(o.orders, other))
            && (s.status == Open || s.status == PartialFilled ==> Get(after, s.id) == Some(s) && entries == [])
            && (s.status == Filled || s.status == Cancelled ==> after == o.orders && entries == [s])
  {
  }

  // ---- Status of a hot order ----

  predicate StatusTells(s: StoredOrder) {
    s.status == if s.filled == 0 then Open else PartialFilled
  }

  ghost predicate AllTell(orders: map<OrderUuid, StoredOrder>) {
    forall id :: id in orders ==> StatusTells(orders[id])
  }

  /** A fill of nothing that leaves something. */
  predicate EmptyFill(op: OrderOp) {
    op.Fill? && op.amount == 0 && op.remaining > 0 && !op.full
  }

  /** The status of an updated order tells what is filled, unless nothing was filled by a first fill. */
  lemma UpdateStatusIff(o: Orders, spot: Spot, op: OrderOp)
    requires !op.Insert? && OnchainId(spot, op.chain) in o.byId && o.byId[OnchainId(spot, op.chain)] in o.orders
    requires AllTell(o.orders)
    ensures AllTell(OpOrders(o, spot, op).orders)
            <==> !(EmptyFill(op) && o.orders[o.byId[OnchainId(spot, op.chain)]].filled == 0)
  {
    UpdateTells(o, spot, op);
    var id, after := o.byId[OnchainId(spot, op.chain)], OpOrders(o, spot, op).orders;
    forall other | other in after && other != id
      ensures StatusTells(after[other])
    {
      assert Get(after, other) == Get(o.orders, other);
    }
    assert id in after ==> (StatusTells(after[id]) <==> !(EmptyFill(op) && o.orders[id].filled == 0));
  }

  /** New orders are open and untouched, or already ended; fills fill something. */
  predicate Lawful(s: OrderStep) {
    !EmptyFill(s.op) && (s.op.Insert? && s.op.order.Hot() ==> StatusTells(s.op.order))
  }

  lemma StepStatus(l: Ledger, s: OrderStep)
    requires AllTell(l.orders.orders) && Lawful(s)
    ensures AllTell(Next(l, s).orders.orders)
  {
    var o := l.orders;
    if s.op.Insert? {
      InsertTells(o, s.spot, s.op.order);
      var after := Next(l, s).orders.orders;
      forall id | id in after
        ensures StatusTells(after[id])
      {
        assert id != s.op.order.id ==> Get(after, id) == Get(o.orders, id);
      }
    } else if OnchainId(s.spot, s.op.chain) in o.byId && o.byId[OnchainId(s.spot, s.op.chain)] in o.orders {
      UpdateStatusIff(o, s.spot, s.op);
    } else {
      UnknownTells(o, s.spot, s.op);
    }
  }

  /** Over every lawful run, each hot order is open while nothing is filled, and partially filled from then on. */
  lemma {:induction false} HotStatus(steps: seq<OrderStep>, n: nat)
    requires n <= |steps| && forall i :: 0 <= i < n ==> Lawful(steps[i])
    ensures AllTell(RunLedger(steps, n).orders.orders)
  {
    if n > 0 {
      HotStatus(steps, n - 1);
      StepStatus(RunLedger(steps, n - 1), steps[n - 1]);
    }
  }

  // ---- What is filled, and the entry in the end ----

  predicate InsertsKey(s: OrderStep, k: OnchainId) {
    s.op.Insert? && s.op.order.Hot() && s.op.order.Key() == k
  }

  predicate Updates(s: OrderStep, k: OnchainId) {
    !s.op.Insert? && OnchainId(s.spot, s.op.chain) == k
  }

  /** What the fills since the latest insertion add up to, with what the order came with. */
  function FilledSum(steps: seq<OrderStep>, n: nat, k: OnchainId): nat
    requires n <= |steps|
  {
    if n == 0 then 0
    else
      var s := steps[n - 1];
      if InsertsKey(s, k) then s.op.order.filled
      else if Updates(s, k) && s.op.Fill? then FilledSum(steps, n - 1, k) + s.op.amount
      else FilledSum(steps, n - 1, k)
  }

  /** The size of the latest insertion or amendment. */
  function LatestSize(steps: seq<OrderStep>, n: nat, k: OnchainId): nat
    requires n <= |steps|
  {
    if n == 0 then 0
    else
      var s := steps[n - 1];
      if InsertsKey(s, k) then s.op.order.size
      else if Updates(s, k) && s.op.Amend? then s.op.newAmount
      else LatestSize(steps, n - 1, k)
  }

  /** The order as it was inserted last. */
  function LatestInsert(steps: seq<OrderStep>, n: nat, k: OnchainId): Option<StoredOrder>
    requires n <= |steps|
  {
    if n == 0 then None
    else if InsertsKey(steps[n - 1], k) then Some(steps[n - 1].op.order)
    else LatestInsert(steps, n - 1, k)
  }

  /** An order tells the run of its composite id. */
  ghost predicate Accounts(steps: seq<OrderStep>, n: nat, s: StoredOrder)
    requires n <= |steps|
  {
    var k := s.Key();
    && LatestInsert(steps, n, k).Some? && SameOrder(LatestInsert(steps, n, k).value, s)
    && s.filled == Clamped(FilledSum(steps, n, k)) && s.size == LatestSize(steps, n, k)
  }

  predicate FreshAt(o: Orders, s: OrderStep) {
    s.op.Insert? && s.op.order.Hot() ==>
      s.op.order.Key() !in o.byId && s.op.order.id == V5(s.op.order.spot, s.op.order.chain)
  }

  /** The insertions of the run are of new orders, each under an id of its own composite id. */
  ghost predicate FreshInserts(steps: seq<OrderStep>, n: nat)
    requires n <= |steps|
  {
    forall i :: 0 <= i < n ==> FreshStep(steps, i)
  }

  predicate FreshStep(steps: seq<OrderStep>, i: nat)
    requires i < |steps|
  {
    FreshAt(RunLedger(steps, i).orders, steps[i])
  }

  /** Ids are those of the composite ids, and every hot order tells the run of its own. */
  ghost predicate Kept(steps: seq<OrderStep>, n: nat)
    requires n <= |steps|
  {
    var o := RunLedger(steps, n).orders;
    IdsIndexed(o.orders, o.byId) && forall id :: id in o.orders ==> KeptAt(steps, n, id, o.orders[id])
  }

  ghost predicate KeptAt(steps: seq<OrderStep>, n: nat, id: OrderUuid, s: StoredOrder)
    requires n <= |steps|
  {
    id == V5(s.spot, s.chain) && Accounts(steps, n, s)
  }

  /** The composite id a step is about. */
  function About(s: OrderStep): OnchainId {
    if s.op.Insert? then s.op.order.Key() else OnchainId(s.spot, s.op.chain)
  }

  /** A step about another order changes nothing in what is told of this one. */
  lemma OtherAccounts(steps: seq<OrderStep>, n: nat, s: StoredOrder)
    requires n < |steps| && Accounts(steps, n, s) && About(steps[n]) != s.Key()
    ensures Accounts(steps, n + 1, s)
  {
  }

  /** An update about the order is told of what it becomes, hot or ended. */
  lemma UpdateAccounts(steps: seq<OrderStep>, n: nat, s: StoredOrder, t: StoredOrder)
    requires n < |steps| && Accounts(steps, n, s) && Updates(steps[n], s.Key()) && UpdatedBy(s, t, steps[n].op)
    ensures Accounts(steps, n + 1, t)
  {
    if steps[n].op.Fill? {
      ClampedAdds(FilledSum(steps, n, s.Key()), steps[n].op.amount);
    }
  }

  lemma InsertAccounts(steps: seq<OrderStep>, n: nat)
    requires n < |steps| && steps[n].op.Insert? && steps[n].op.order.Hot()
    ensures Accounts(steps, n + 1, steps[n].op.order)
  {
  }

  lemma NewId(o: Orders, s: StoredOrder)
    requires IdsIndexed(o.orders, o.byId) && forall id :: id in o.orders ==> id == V5(o.orders[id].spot, o.orders[id].chain)
    requires s.Key() !in o.byId && s.id == V5(s.spot, s.chain)
    ensures s.id !in o.orders
  {
    assert s.id in o.orders ==> o.orders[s.id].Key() == s.Key();
  }

  /** The operation of a fresh step keeps both maps of ids. */
  lemma IdsKept(o: Orders, s: OrderStep)
    requires IdsIndexed(o.orders, o.byId) && forall id :: id in o.orders ==> id == V5(o.orders[id].spot, o.orders[id].chain)
    requires FreshAt(o, s)
    ensures var after := OpOrders(o, s.spot, s.op); IdsIndexed(after.orders, after.byId)
  {
    if s.op.Insert? && s.op.order.Hot() {
      NewId(o, s.op.order);
    }
  }

  lemma InsertKept(steps: seq<OrderStep>, n: nat, id: OrderUuid)
    requires n < |steps| && Kept(steps, n) && steps[n].op.Insert? && id in RunLedger(steps, n + 1).orders.orders
    requires steps[n].op.order.Hot() ==> steps[n].op.order.id == V5(steps[n].op.order.spot, steps[n].op.order.chain)
    ensures KeptAt(steps, n + 1, id, RunLedger(steps, n + 1).orders.orders[id])
  {
    var o, s := RunLedger(steps, n).orders, steps[n].op.order;
    InsertTells(o, steps[n].spot, s);
    if s.Hot() && id == s.id {
      InsertAccounts(steps, n);
    } else {
      assert id in o.orders && KeptAt(steps, n, id, o.orders[id]);
      if s.Hot() {
        OtherAccounts(steps, n, o.orders[id]);
      }
    }
  }

  /** An ended order that is inserted changes nothing in what is told of hot ones. */
  lemma EndedInsert(steps: seq<OrderStep>, n: nat, s: StoredOrder)
    requires n < |steps| && Accounts(steps, n, s) && steps[n].op.Insert? && !steps[n].op.order.Hot()
    ensures Accounts(steps, n + 1, s)
  {
  }

  lemma UpdateKept(steps: seq<OrderStep>, n: nat, id: OrderUuid)
    requires n < |steps| && Kept(steps, n) && !steps[n].op.Insert? && id in RunLedger(steps, n + 1).orders.orders
    ensures KeptAt(steps, n + 1, id, RunLedger(steps, n + 1).orders.orders[id])
  {
    var o, s, k := RunLedger(steps, n).orders, steps[n], About(steps[n]);
    if k in o.byId && o.byId[k] in o.orders {
      UpdateTells(o, s.spot, s.op);
      if id == o.byId[k] {
        assert KeptAt(steps, n, id, o.orders[id]);
        UpdateAccounts(steps, n, o.orders[id], RunLedger(steps, n + 1).orders.orders[id]);
        return;
      }
    } else {
      UnknownTells(o, s.spot, s.op);
    }
    assert id in o.orders && KeptAt(steps, n, id, o.orders[id]);
    assert Get(o.byId, o.orders[id].Key()) == Some(id);
    OtherAccounts(steps, n, o.orders[id]);
  }

  lemma {:induction false} KeptNext(steps: seq<OrderStep>, n: nat)
    requires n < |steps| && Kept(steps, n) && FreshAt(RunLedger(steps, n).orders, steps[n])
    ensures Kept(steps, n + 1)
  {
    var s, o := steps[n], RunLedger(steps, n).orders;
    forall id | id in o.orders
      ensures id == V5(o.orders[id].spot, o.orders[id].chain)
    {
      assert KeptAt(steps, n, id, o.orders[id]);
    }
    var after := RunLedger(steps, n + 1).orders.orders;
    IdsKept(o, s);
    forall id | id in after
      ensures KeptAt(steps, n + 1, id, after[id])
    {
      if s.op.Insert? {
        InsertKept(steps, n, id);
      } else {
        UpdateKept(steps, n, id);
      }
    }
  }

  lemma KeptAtFirst(steps: seq<OrderStep>)
    ensures Kept(steps, 0)
  {
  }

  /**
   Over every run of fresh insertions and any updates: a hot order is the one inserted last under its composite
   id, what is filled is the capped sum of the fills since, and its size is the latest amendment's.
   */
  lemma {:induction false} HotOrdersAccount(steps: seq<OrderStep>, n: nat)
    requires n <= |steps| && FreshInserts(steps, n)
    ensures Kept(steps, n)
  {
    KeptAtFirst(steps);
    for i := 0 to n
      invariant Kept(steps, i)
    {
      assert FreshStep(steps, i);
      KeptNext(steps, i);
    }
  }

  /**
   Each order leaves one entry: the update that ends a hot order adds exactly one, which is the order as it was
   inserted, with its latest size and the capped sum of its fills, cancelled after a cancel and filled after a
   fill or amendment that leaves nothing. Other updates add none, and an insertion adds only an ended order.
   */
  lemma {:induction false} EntryTells(steps: seq<OrderStep>, n: nat)
    requires n < |steps| && FreshInserts(steps, n)
    ensures var before, after, s := RunLedger(steps, n), RunLedger(steps, n + 1), steps[n];
            var k := About(s);
            if s.op.Insert? then
              after.history == before.history +
                if s.op.order.status == Filled || s.op.order.status == Cancelled then [s.op.order] else []
            else if k in before.orders.byId && before.orders.byId[k] in before.orders.orders && Ends(s.op) then
              && before.orders.byId[k] !in after.orders.orders
              && |after.history| == |before.history| + 1 && after.history[..|before.history|] == before.history
              && var e := after.history[|before.history|];
                 Accounts(steps, n + 1, e) && e.Key() == k && e.status == if s.op.Cancel? then Cancelled else Filled
            else after.history == before.history
  {
    var o, s, k := RunLedger(steps, n).orders, steps[n], About(steps[n]);
    HotOrdersAccount(steps, n);
    if s.op.Insert? {
      InsertTells(o, s.spot, s.op.order);
    } else if k in o.byId && o.byId[k] in o.orders {
      var id := o.byId[k];
      UpdateTells(o, s.spot, s.op);
      assert KeptAt(steps, n, id, o.orders[id]);
      if Ends(s.op) {
        UpdateAccounts(steps, n, o.orders[id], OpHistory(o, s.spot, s.op)[0]);
      }
    } else {
      UnknownTells(o, s.spot, s.op);
    }
  }
}
