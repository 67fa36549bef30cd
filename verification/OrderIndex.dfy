/** Hot orders and their two secondary indexes (src/indexer/index_state.rs). */
module OrderIndex {
  import opened Ints
  import opened WriteSets
  import opened Text

  /** Composite id of an order on chain. */
  datatype OnchainId = OnchainId(spot: Spot, chain: string)

  datatype StoredOrder = StoredOrder(
    id: OrderUuid, user: string, chain: string, spot: Spot, size: u64, filled: u64,
    status: Status, side: Side, price: u64, caption: string)
  {
    function Key(): OnchainId { OnchainId(spot, chain) }

    function UserKey(): string { AddressKey(user) }

    predicate Hot() { IsHot(status) }
  }

  predicate IsHot(status: Status) {
    status == Open || status == PartialFilled
  }

  datatype Orders = Orders(
    orders: map<OrderUuid, StoredOrder>, byId: map<OnchainId, OrderUuid>, byUser: map<string, set<OrderUuid>>)

  const NO_ORDERS := Orders(map[], map[], map[])

  datatype OrderOp =
    | Insert(order: StoredOrder)
    | Cancel(chain: string)
    | Amend(chain: string, newAmount: u64, remaining: u64)
    | Fill(chain: string, amount: u64, remaining: u64, full: bool)

  function Row(s: StoredOrder): OrderRow {
    OrderRow(s.id, s.user, s.chain, s.spot, AsI64(s.size), AsI64(s.filled), s.status, s.side, s.price, s.caption)
  }

  // ---- Specification of one operation ----

  function WithUser(byUser: map<string, set<OrderUuid>>, user: string, id: OrderUuid): map<string, set<OrderUuid>> {
    byUser[user := Get(byUser, user).GetOr({}) + {id}]
  }

  function WithoutUser(byUser: map<string, set<OrderUuid>>, user: string, id: OrderUuid): map<string, set<OrderUuid>> {
    if user in byUser then byUser[user := byUser[user] - {id}] else byUser
  }

  function AddHot(o: Orders, s: StoredOrder): Orders {
    Orders(o.orders[s.id := s], o.byId[s.Key() := s.id], WithUser(o.byUser, s.UserKey(), s.id))
  }

  function RemoveHot(o: Orders, id: OrderUuid, s: StoredOrder): Orders {
    Orders(o.orders - {id}, o.byId - {s.Key()}, WithoutUser(o.byUser, s.UserKey(), id))
  }

  /** The hot order an event refers to, found through the composite id. */
  function Find(o: Orders, spot: Spot, chain: string): Option<OrderUuid> {
    var key := OnchainId(spot, chain);
    if key in o.byId && o.byId[key] in o.orders then Some(o.byId[key]) else None
  }

  function Changed(s: StoredOrder, op: OrderOp): StoredOrder {
    match op
    case Insert(_) => s
    case Cancel(_) => s.(status := Cancelled)
    case Amend(_, newAmount, remaining) =>
      s.(size := newAmount,
         status := if remaining == 0 then Filled else if s.filled > 0 then PartialFilled else Open)
    case Fill(_, amount, remaining, full) =>
      s.(filled := SatAdd(s.filled, amount),
         status := if full || remaining == 0 then Filled else PartialFilled)
  }

  function OpOrders(o: Orders, spot: Spot, op: OrderOp): Orders {
    if op.Insert? then
      if op.order.Hot() then AddHot(o, op.order) else o
    else
      match Find(o, spot, op.chain)
      case None => o
      case Some(id) =>
        var s := Changed(o.orders[id], op);
        if s.Hot() then o.(orders := o.orders[id := s]) else RemoveHot(o, id, s)
  }

  /** Rows collected by an operation. */
  function CollectOrderOp(d: Delta, o: Orders, spot: Spot, op: OrderOp): Delta {
    if op.Insert? then
      if op.order.Hot() then d.Put(OrderKey(op.order.id), OrderVal(Row(op.order))) else d
    else
      match Find(o, spot, op.chain)
      case None => d
      case Some(id) =>
        var s := Changed(o.orders[id], op);
        if s.Hot() then d.Put(OrderKey(s.id), OrderVal(Row(s))) else d.Drop(OrderKey(id))
  }

  /** Orders handed to the history: those that leave the hot set, or never enter it. */
  function OpHistory(o: Orders, spot: Spot, op: OrderOp): seq<StoredOrder> {
    if op.Insert? then
      if op.order.Hot() then [] else [op.order]
    else
      match Find(o, spot, op.chain)
      case None => []
      case Some(id) =>
        var s := Changed(o.orders[id], op);
        if s.Hot() then [] else [s]
  }

  class OrderIndex {
    var orders: map<OrderUuid, StoredOrder>
    var byId: map<OnchainId, OrderUuid>
    var byUser: map<string, set<OrderUuid>>
    var history: seq<StoredOrder>

    constructor ()
      ensures View() == NO_ORDERS && history == []
    {
      orders, byId, byUser, history := map[], map[], map[], [];
    }

    function View(): Orders
      reads this
    {
      Orders(orders, byId, byUser)
    }

    method HasChainOrder(spot: Spot, chain: string) returns (known: bool)
      ensures known <==> OnchainId(spot, chain) in View().byId
    {
      known := OnchainId(spot, chain) in byId;
    }

    method InsertOrder(s: StoredOrder, ws: IndexWriteSet)
      modifies this, ws`toStore, ws`toDelete
      ensures View() == OpOrders(old(View()), s.spot, Insert(s))
      ensures ws.Changes() == CollectOrderOp(old(ws.Changes()), old(View()), s.spot, Insert(s))
      ensures history == old(history) + OpHistory(old(View()), s.spot, Insert(s))
    {
      if !s.Hot() {
        history := history + [s];
        return;
      }
      byId := byId[s.Key() := s.id];
      var ids := if s.UserKey() in byUser then byUser[s.UserKey()] else {};
      byUser := byUser[s.UserKey() := ids + {s.id}];
      ws.StoreOrder(Row(s));
      orders := orders[s.id := s];
    }

    method RemoveHotOrder(id: OrderUuid, s: StoredOrder)
      modifies this`orders, this`byId, this`byUser
      ensures View() == RemoveHot(old(View()), id, s)
    {
      byId := byId - {s.Key()};
      var user := s.UserKey();
      if user in byUser {
        byUser := byUser[user := byUser[user] - {id}];
      }
      orders := orders - {id};
    }

    method ArchiveTerminalOrder(id: OrderUuid, s: StoredOrder, ws: IndexWriteSet)
      modifies this, ws`toStore, ws`toDelete
      ensures View() == RemoveHot(old(View()), id, s)
      ensures ws.Changes() == old(ws.Changes()).Drop(OrderKey(id))
      ensures history == old(history) + [s]
    {
      RemoveHotOrder(id, s);
      ws.Delete(OrderKey(id));
      history := history + [s];
    }

    /** Stores the changed record of a found order, or archives it when its new status is terminal. */
    method Settle(id: OrderUuid, s: StoredOrder, ws: IndexWriteSet)
      modifies this, ws`toStore, ws`toDelete
      ensures View() == if s.Hot() then old(View()).(orders := old(orders)[id := s])
                        else RemoveHot(old(View()).(orders := old(orders)[id := s]), id, s)
      ensures ws.Changes() == if s.Hot() then old(ws.Changes()).Put(OrderKey(s.id), OrderVal(Row(s)))
                              else old(ws.Changes()).Drop(OrderKey(id))
      ensures history == old(history) + if s.Hot() then [] else [s]
    {
      orders := orders[id := s];
      if s.Hot() {
        ws.StoreOrder(Row(s));
      } else {
        ArchiveTerminalOrder(id, s, ws);
      }
    }

    method UpdateOrderCancelled(spot: Spot, chain: string, ws: IndexWriteSet)
      modifies this, ws`toStore, ws`toDelete
      ensures View() == OpOrders(old(View()), spot, Cancel(chain))
      ensures ws.Changes() == CollectOrderOp(old(ws.Changes()), old(View()), spot, Cancel(chain))
      ensures history == old(history) + OpHistory(old(View()), spot, Cancel(chain))
    {
      var found := Find(View(), spot, chain);
      if found.None? {
        return;
      }
      var s := orders[found.value];
      Settle(found.value, s.(status := Cancelled), ws);
      assert old(orders)[found.value := s.(status := Cancelled)] - {found.value} == old(orders) - {found.value};
    }

    method UpdateOrderAmount(spot: Spot, chain: string, newAmount: u64, remaining: u64, ws: IndexWriteSet)
      modifies this, ws`toStore, ws`toDelete
      ensures View() == OpOrders(old(View()), spot, Amend(chain, newAmount, remaining))
      ensures ws.Changes() == CollectOrderOp(old(ws.Changes()), old(View()), spot, Amend(chain, newAmount, remaining))
      ensures history == old(history) + OpHistory(old(View()), spot, Amend(chain, newAmount, remaining))
    {
      var found := Find(View(), spot, chain);
      if found.None? {
        return;
      }
      var s := orders[found.value];
      var status := if remaining == 0 then Filled else if s.filled > 0 then PartialFilled else Open;
      s := s.(size := newAmount, status := status);
      Settle(found.value, s, ws);
      assert old(orders)[found.value := s] - {found.value} == old(orders) - {found.value};
    }

    method UpdateOrderFill(spot: Spot, chain: string, amount: u64, remaining: u64, full: bool, ws: IndexWriteSet)
      modifies this, ws`toStore, ws`toDelete
      ensures View() == OpOrders(old(View()), spot, Fill(chain, amount, remaining, full))
      ensures ws.Changes() == CollectOrderOp(old(ws.Changes()), old(View()), spot, Fill(chain, amount, remaining, full))
      ensures history == old(history) + OpHistory(old(View()), spot, Fill(chain, amount, remaining, full))
    {
      var found := Find(View(), spot, chain);
      if found.None? {
        return;
      }
      var s := orders[found.value];
      var status := if full || remaining == 0 then Filled else PartialFilled;
      s := s.(filled := SatAdd(s.filled, amount), status := status);
      Settle(found.value, s, ws);
      assert old(orders)[found.value := s] - {found.value} == old(orders) - {found.value};
    }

    method RebuildOrderIndexes()
      modifies this`byId, this`byUser
      ensures IsRebuild(orders, byId, byUser)
    {
      byId, byUser := map[], map[];
      var todo := orders.Keys;
      ghost var done: map<OrderUuid, StoredOrder> := map[];
      while todo != {}
        invariant todo !! done.Keys && todo + done.Keys == orders.Keys
        invariant forall id :: id in done ==> done[id] == orders[id]
        invariant IsRebuild(done, byId, byUser)
      {
        var id :| id in todo;
        var s := orders[id];
        RebuildStep(done, byId, byUser, id, s);
        byId := byId[s.Key() := id];
        var ids := if s.UserKey() in byUser then byUser[s.UserKey()] else {};
        byUser := byUser[s.UserKey() := ids + {id}];
        todo, done := todo - {id}, done[id := s];
      }
      assert done == orders;
    }
  }

  lemma RebuildStep(done: map<OrderUuid, StoredOrder>, byId: map<OnchainId, OrderUuid>,
                    byUser: map<string, set<OrderUuid>>, id: OrderUuid, s: StoredOrder)
    requires IsRebuild(done, byId, byUser) && id !in done
    ensures IsRebuild(done[id := s], byId[s.Key() := id], WithUser(byUser, s.UserKey(), id))
  {
    var after := WithUser(byUser, s.UserKey(), id);
    forall user, i
      ensures Listed(after, user, i) <==> Belongs(done[id := s], user, i)
    {
      assert Listed(byUser, user, i) <==> Belongs(done, user, i);
      assert Listed(after, user, i) <==> Listed(byUser, user, i) || (user == s.UserKey() && i == id);
    }
  }

  ghost predicate Listed(byUser: map<string, set<OrderUuid>>, user: string, id: OrderUuid) {
    user in byUser && id in byUser[user]
  }

  ghost predicate Belongs(orders: map<OrderUuid, StoredOrder>, user: string, id: OrderUuid) {
    id in orders && orders[id].UserKey() == user
  }

  /** The user index lists exactly the orders of each user. */
  ghost predicate UsersIndexed(orders: map<OrderUuid, StoredOrder>, byUser: map<string, set<OrderUuid>>) {
    forall user, id :: Listed(byUser, user, id) <==> Belongs(orders, user, id)
  }

  /** Composite ids lead to orders that carry them. */
  ghost predicate IdsResolve(orders: map<OrderUuid, StoredOrder>, byId: map<OnchainId, OrderUuid>) {
    forall k :: k in byId ==> byId[k] in orders && orders[byId[k]].Key() == k
  }

  /** What a rebuild from the orders alone produces. */
  ghost predicate IsRebuild(orders: map<OrderUuid, StoredOrder>, byId: map<OnchainId, OrderUuid>,
                            byUser: map<string, set<OrderUuid>>)
  {
    && IdsResolve(orders, byId)
    && (forall id :: id in orders ==> orders[id].Key() in byId)
    && UsersIndexed(orders, byUser)
    && (forall u :: u in byUser ==> byUser[u] != {})
  }

  // ---- Coherence ----

  ghost predicate IdsIndexed(orders: map<OrderUuid, StoredOrder>, byId: map<OnchainId, OrderUuid>) {
    && IdsResolve(orders, byId)
    && forall id :: id in orders ==> Get(byId, orders[id].Key()) == Some(id)
  }

  /** Orders are filed under their own id. */
  ghost predicate Keyed(orders: map<OrderUuid, StoredOrder>) {
    forall id :: id in orders ==> orders[id].id == id
  }

  ghost predicate AllHot(orders: map<OrderUuid, StoredOrder>) {
    forall id :: id in orders ==> orders[id].Hot()
  }

  /** The three maps describe the same set of hot orders. */
  ghost predicate Coherent(o: Orders) {
    AllHot(o.orders) && IdsIndexed(o.orders, o.byId) && UsersIndexed(o.orders, o.byUser)
  }

  /** An inserted id is new, or is inserted again for the same user under the same composite id. */
  ghost predicate Reinsertable(o: Orders, s: StoredOrder) {
    && (s.id in o.orders ==> o.orders[s.id].UserKey() == s.UserKey() && o.orders[s.id].Key() == s.Key())
    && (s.Key() in o.byId ==> o.byId[s.Key()] == s.id)
  }

  lemma AddUserIff(orders: map<OrderUuid, StoredOrder>, byUser: map<string, set<OrderUuid>>, s: StoredOrder)
    requires UsersIndexed(orders, byUser)
    ensures UsersIndexed(orders[s.id := s], WithUser(byUser, s.UserKey(), s.id))
            <==> (s.id in orders ==> orders[s.id].UserKey() == s.UserKey())
  {
    var after := WithUser(byUser, s.UserKey(), s.id);
    forall user, id
      ensures Listed(after, user, id) <==> Listed(byUser, user, id) || (user == s.UserKey() && id == s.id)
    {
    }
    if s.id in orders && orders[s.id].UserKey() != s.UserKey() {
      var user := orders[s.id].UserKey();
      assert Belongs(orders, user, s.id);
      assert Listed(after, user, s.id) && !Belongs(orders[s.id := s], user, s.id);
    } else {
      forall user, id
        ensures Listed(after, user, id) <==> Belongs(orders[s.id := s], user, id)
      {
        assert Listed(byUser, user, id) <==> Belongs(orders, user, id);
      }
    }
  }

  lemma AddIdIff(orders: map<OrderUuid, StoredOrder>, byId: map<OnchainId, OrderUuid>, s: StoredOrder)
    requires IdsIndexed(orders, byId)
    ensures IdsIndexed(orders[s.id := s], byId[s.Key() := s.id])
            <==> (s.id in orders ==> orders[s.id].Key() == s.Key()) && (s.Key() in byId ==> byId[s.Key()] == s.id)
  {
    if s.id in orders && orders[s.id].Key() != s.Key() {
      assert byId[s.Key() := s.id][orders[s.id].Key()] == s.id;
    } else if s.Key() in byId && byId[s.Key()] != s.id {
      assert byId[s.Key()] in orders[s.id := s];
    }
  }

  /** Inserting a hot order keeps the indexes coherent exactly when it is reinsertable. */
  lemma InsertCoherentIff(o: Orders, s: StoredOrder)
    requires Coherent(o) && s.Hot()
    ensures Coherent(OpOrders(o, s.spot, Insert(s))) <==> Reinsertable(o, s)
  {
    AddUserIff(o.orders, o.byUser, s);
    AddIdIff(o.orders, o.byId, s);
  }

  lemma ReplaceCoherent(o: Orders, id: OrderUuid, s: StoredOrder)
    requires Coherent(o) && id in o.orders && s.Hot()
    requires s.Key() == o.orders[id].Key() && s.UserKey() == o.orders[id].UserKey()
    ensures Coherent(o.(orders := o.orders[id := s]))
  {
    forall user, i
      ensures Listed(o.byUser, user, i) <==> Belongs(o.orders[id := s], user, i)
    {
      assert Listed(o.byUser, user, i) <==> Belongs(o.orders, user, i);
    }
  }

  lemma RemoveCoherent(o: Orders, id: OrderUuid, s: StoredOrder)
    requires Coherent(o) && id in o.orders
    requires s.Key() == o.orders[id].Key() && s.UserKey() == o.orders[id].UserKey()
    ensures Coherent(RemoveHot(o, id, s))
  {
    var after := RemoveHot(o, id, s);
    assert IdsIndexed(after.orders, after.byId) by {
      forall k | k in after.byId
        ensures after.byId[k] != id
      {
      }
    }
    forall user, i
      ensures Listed(after.byUser, user, i) <==> Belongs(after.orders, user, i)
    {
      assert Listed(o.byUser, user, i) <==> Belongs(o.orders, user, i);
      assert Listed(after.byUser, user, i) <==> Listed(o.byUser, user, i) && !(user == s.UserKey() && i == id);
    }
  }

  /** Cancels, amendments and fills always keep the indexes coherent; inserts when reinsertable. */
  lemma OpCoherent(o: Orders, spot: Spot, op: OrderOp)
    requires Coherent(o)
    requires op.Insert? && op.order.Hot() ==> Reinsertable(o, op.order)
    ensures Coherent(OpOrders(o, spot, op))
  {
    if op.Insert? {
      if op.order.Hot() {
        InsertCoherentIff(o, op.order);
      }
    } else if Find(o, spot, op.chain).Some? {
      var id := Find(o, spot, op.chain).value;
      var s := Changed(o.orders[id], op);
      if s.Hot() {
        ReplaceCoherent(o, id, s);
      } else {
        RemoveCoherent(o, id, s);
      }
    }
  }

  function WithoutEmpty(byUser: map<string, set<OrderUuid>>): map<string, set<OrderUuid>> {
    map u | u in byUser && byUser[u] != {} :: byUser[u]
  }

  ghost predicate DistinctKeys(orders: map<OrderUuid, StoredOrder>) {
    forall i, j :: i in orders && j in orders && orders[i].Key() == orders[j].Key() ==> i == j
  }

  lemma IdsIffRebuilt(orders: map<OrderUuid, StoredOrder>, ids: map<OnchainId, OrderUuid>, byId: map<OnchainId, OrderUuid>)
    requires IdsResolve(orders, byId) && forall id :: id in orders ==> orders[id].Key() in byId
    ensures IdsIndexed(orders, ids) <==> DistinctKeys(orders) && ids == byId
  {
    if IdsIndexed(orders, ids) {
      forall i, j | i in orders && j in orders && orders[i].Key() == orders[j].Key()
        ensures i == j
      {
        assert Get(ids, orders[i].Key()) == Some(i) && Get(ids, orders[j].Key()) == Some(j);
      }
      forall k
        ensures k in ids <==> k in byId
        ensures k in byId ==> ids[k] == byId[k]
      {
      }
    }
  }

  lemma UsersIffRebuilt(orders: map<OrderUuid, StoredOrder>, users: map<string, set<OrderUuid>>,
                        byUser: map<string, set<OrderUuid>>)
    requires UsersIndexed(orders, byUser) && forall u :: u in byUser ==> byUser[u] != {}
    ensures UsersIndexed(orders, users) <==> WithoutEmpty(users) == byUser
  {
    if UsersIndexed(orders, users) {
      forall u
        ensures u in WithoutEmpty(users) <==> u in byUser
        ensures u in byUser ==> WithoutEmpty(users)[u] == byUser[u]
      {
        SameIds(orders, users, byUser, u);
      }
    }
    if WithoutEmpty(users) == byUser {
      forall user, id
        ensures Listed(users, user, id) <==> Belongs(orders, user, id)
      {
        assert Listed(byUser, user, id) <==> Belongs(orders, user, id);
        assert Listed(users, user, id) <==> Listed(WithoutEmpty(users), user, id);
      }
    }
  }

  lemma SameIds(orders: map<OrderUuid, StoredOrder>, users: map<string, set<OrderUuid>>,
                byUser: map<string, set<OrderUuid>>, u: string)
    requires UsersIndexed(orders, users) && UsersIndexed(orders, byUser)
    ensures Get(users, u).GetOr({}) == Get(byUser, u).GetOr({})
  {
    forall id
      ensures id in Get(users, u).GetOr({}) <==> id in Get(byUser, u).GetOr({})
    {
      assert Listed(users, u, id) <==> Belongs(orders, u, id);
      assert Listed(byUser, u, id) <==> Belongs(orders, u, id);
    }
  }

  /** Coherent indexes are those a rebuild produces from the orders, up to users left with no order. */
  lemma CoherentIffRebuilt(o: Orders, byId: map<OnchainId, OrderUuid>, byUser: map<string, set<OrderUuid>>)
    requires IsRebuild(o.orders, byId, byUser)
    ensures Coherent(o) <==>
            AllHot(o.orders) && DistinctKeys(o.orders) && o.byId == byId && WithoutEmpty(o.byUser) == byUser
  {
    IdsIffRebuilt(o.orders, o.byId, byId);
    UsersIffRebuilt(o.orders, o.byUser, byUser);
  }
}
