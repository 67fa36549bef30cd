/**
 Per-block deltas (src/persist/index_write_set.rs), the write batch built from one delta and the store
 it is written to (src/persist/index_state_tables.rs, crates/typed-store/src/rocks/memstore.rs).

 The column families share one key space: a `RowKey` names the family and the key in it.
 */
module WriteSets {
  import opened Ints

  type Spot = string

  datatype Side = Buy | Sell

  /** `Uuid::new_v5` of the composite on-chain order id, taken to be injective. */
  datatype OrderUuid = V5(spot: Spot, chain: string)

  datatype Status = Open | PartialFilled | Filled | Cancelled

  datatype OrderRow = OrderRow(
    id: OrderUuid, user: string, chain: string, spot: Spot, size: i64, filled: i64,
    status: Status, side: Side, price: u64, caption: string)

  datatype RowKey =
    | MarketKey(market: string)
    | OrderKey(order: OrderUuid)
    | LevelKey(spot: Spot, side: Side, price: i64)
    | BookMetaKey(spot: Spot)
    | LastTradeKey(spot: Spot)
    | VaultKey(vault: string)
    | HoldingKey(vault: string, spot: Spot)

  datatype RowVal =
    | Payload(text: string)
    | OrderVal(row: OrderRow)
    | BookMetaVal(sequence: i64, lastPrice: Option<i64>)
    | Amount(raw: i64)

  type Rows = map<RowKey, RowVal>

  /** The column families. */
  datatype Family = MarketFamily | OrderFamily | LevelFamily | BookMetaFamily | LastTradeFamily | VaultFamily | HoldingFamily

  const FAMILIES: set<Family> := {MarketFamily, OrderFamily, LevelFamily, BookMetaFamily, LastTradeFamily, VaultFamily, HoldingFamily}

  function FamilyOf(k: RowKey): (f: Family)
    ensures f in FAMILIES
  {
    match k
    case MarketKey(_) => MarketFamily
    case OrderKey(_) => OrderFamily
    case LevelKey(_, _, _) => LevelFamily
    case BookMetaKey(_) => BookMetaFamily
    case LastTradeKey(_) => LastTradeFamily
    case VaultKey(_) => VaultFamily
    case HoldingKey(_, _) => HoldingFamily
  }

  function RowsIn(rows: Rows, f: Family): Rows {
    map k | k in rows && FamilyOf(k) == f :: rows[k]
  }

  datatype Head = Head(blockNum: u64, digest: string)

  /** All tables; `head` stands for the rows `last_block_num` and `last_digest` of the meta family. */
  datatype Db = Db(rows: Rows, head: Option<Head>)

  /** Put set and delete set of one block. */
  datatype Delta = Delta(store: Rows, del: set<RowKey>) {
    ghost predicate Disjoint() { store.Keys !! del }

    function Put(k: RowKey, v: RowVal): Delta { Delta(store[k := v], del - {k}) }

    function Drop(k: RowKey): Delta { Delta(store - {k}, del + {k}) }

    /** `store_book_level` and `store_vault_portfolio`: a non-positive amount is a delete. */
    function PutAmount(k: RowKey, raw: i64): Delta {
      if raw <= 0 then Drop(k) else Put(k, Amount(raw))
    }

    /** Stores of `other` override this set first, its deletes override both. */
    function Then(other: Delta): Delta {
      Delta((store + other.store) - other.del, (del - other.store.Keys) + other.del)
    }

    /** Deletes first, then puts, the order in which the batch is built. */
    function Apply(rows: Rows): Rows { (rows - del) + store }

    function Keys(): set<RowKey> { store.Keys + del }
  }

  const EMPTY_DELTA := Delta(map[], {})

  datatype WriteSet = WriteSet(blockNum: u64, digest: string, fullReplace: bool, delta: Delta)

  /** The sink an operation collects its delta in. */
  class IndexWriteSet {
    var blockNum: u64
    var digest: string
    var fullReplace: bool
    var toStore: Rows
    var toDelete: set<RowKey>

    constructor ()
      ensures View() == WriteSet(0, "", false, EMPTY_DELTA)
    {
      blockNum, digest, fullReplace, toStore, toDelete := 0, "", false, map[], {};
    }

    function Changes(): Delta
      reads this
    {
      Delta(toStore, toDelete)
    }

    function View(): WriteSet
      reads this
    {
      WriteSet(blockNum, digest, fullReplace, Changes())
    }

    method Store(k: RowKey, v: RowVal)
      modifies this`toStore, this`toDelete
      ensures Changes() == old(Changes()).Put(k, v)
    {
      toDelete := toDelete - {k};
      toStore := toStore[k := v];
    }

    method Delete(k: RowKey)
      modifies this`toStore, this`toDelete
      ensures Changes() == old(Changes()).Drop(k)
    {
      toStore := toStore - {k};
      toDelete := toDelete + {k};
    }

    method StoreOrder(row: OrderRow)
      modifies this`toStore, this`toDelete
      ensures Changes() == old(Changes()).Put(OrderKey(row.id), OrderVal(row))
    {
      Store(OrderKey(row.id), OrderVal(row));
    }

    method StoreBookLevel(spot: Spot, side: Side, price: i64, size: i64)
      modifies this`toStore, this`toDelete
      ensures Changes() == old(Changes()).PutAmount(LevelKey(spot, side, price), size)
    {
      var key := LevelKey(spot, side, price);
      if size <= 0 {
        Delete(key);
      } else {
        Store(key, Amount(size));
      }
    }

    method StoreVaultPortfolio(vault: string, spot: Spot, amount: i64)
      modifies this`toStore, this`toDelete
      ensures Changes() == old(Changes()).PutAmount(HoldingKey(vault, spot), amount)
    {
      var key := HoldingKey(vault, spot);
      if amount <= 0 {
        Delete(key);
      } else {
        Store(key, Amount(amount));
      }
    }

    /** Loops over the two sets of `other`, in whatever order the hash maps yield. */
    method Merge(other: WriteSet)
      modifies this
      ensures Changes() == old(Changes()).Then(other.delta)
      ensures fullReplace == (old(fullReplace) || other.fullReplace)
      ensures blockNum == old(blockNum) && digest == old(digest)
    {
      MergeStores(other.delta.store);
      MergeDeletes(other.delta.del);
      if other.fullReplace {
        fullReplace := true;
      }
    }

    method MergeStores(rows: Rows)
      modifies this`toStore, this`toDelete
      ensures toStore == old(toStore) + rows && toDelete == old(toDelete) - rows.Keys
    {
      var todo := rows.Keys;
      ghost var done: Rows := map[];
      while todo != {}
        invariant todo !! done.Keys && todo + done.Keys == rows.Keys
        invariant forall k :: k in done ==> done[k] == rows[k]
        invariant toStore == old(toStore) + done && toDelete == old(toDelete) - done.Keys
      {
        var k :| k in todo;
        toDelete := toDelete - {k};
        toStore := toStore[k := rows[k]];
        todo, done := todo - {k}, done[k := rows[k]];
      }
      assert done == rows;
    }

    method MergeDeletes(keys: set<RowKey>)
      modifies this`toStore, this`toDelete
      ensures toStore == old(toStore) - keys && toDelete == old(toDelete) + keys
    {
      var todo := keys;
      ghost var done: set<RowKey> := {};
      while todo != {}
        invariant todo !! done && todo + done == keys
        invariant toStore == old(toStore) - done && toDelete == old(toDelete) + done
      {
        var k :| k in todo;
        toStore := toStore - {k};
        toDelete := toDelete + {k};
        todo, done := todo - {k}, done + {k};
      }
      assert done == keys;
    }
  }

  // ---- Algebra of deltas ----

  /** Every operation on a delta keeps its put and delete sets apart. */
  lemma DisjointKept(d: Delta, k: RowKey, v: RowVal, raw: i64, other: Delta)
    requires d.Disjoint()
    ensures d.Put(k, v).Disjoint() && d.Drop(k).Disjoint() && d.PutAmount(k, raw).Disjoint()
    ensures other.Disjoint() ==> d.Then(other).Disjoint()
  {
  }

  /** Collecting one more put or delete is the same as performing it after the delta. */
  lemma PutThenApply(d: Delta, rows: Rows, k: RowKey, v: RowVal)
    ensures d.Put(k, v).Apply(rows) == d.Apply(rows)[k := v]
    ensures d.Drop(k).Apply(rows) == d.Apply(rows) - {k}
  {
  }

  /** What a write set does to the tables; `seen` are the keys present when its batch was built. */
  function BuiltEffect(seen: set<RowKey>, ws: WriteSet, db: Db): Db {
    Db(ws.delta.Apply(db.rows - if ws.fullReplace then seen else {}),
       Some(Head(ws.blockNum, ws.digest)))
  }

  /** Build and commit at once (`apply_index_write_set`). */
  function ApplyWriteSet(ws: WriteSet, db: Db): Db {
    BuiltEffect(db.rows.Keys, ws, db)
  }

  function MergeSets(a: WriteSet, b: WriteSet): WriteSet {
    a.(fullReplace := a.fullReplace || b.fullReplace, delta := a.delta.Then(b.delta))
  }

  /** A row that tells the merged set from the two sets applied in turn. */
  predicate Separates(a: WriteSet, b: WriteSet, k: RowKey) {
    (k in b.delta.store && k in b.delta.del) ||
    (b.fullReplace && k in a.delta.store && k !in b.delta.store && k !in b.delta.del)
  }

  /** Merging is sequential composition exactly when no row separates the two. */
  lemma MergeIsComposition(a: WriteSet, b: WriteSet, db: Db)
    ensures ApplyWriteSet(MergeSets(a, b), db).rows == ApplyWriteSet(b, ApplyWriteSet(a, db)).rows
            <==> forall k :: !Separates(a, b, k)
  {
    var merged := ApplyWriteSet(MergeSets(a, b), db).rows;
    var inTurn := ApplyWriteSet(b, ApplyWriteSet(a, db)).rows;
    forall k
      ensures Get(merged, k) == Get(inTurn, k) <==> !Separates(a, b, k)
    {
    }
    if forall k :: !Separates(a, b, k) {
      forall k
        ensures Get(merged, k) == Get(inTurn, k)
      {
        assert !Separates(a, b, k);
      }
      SameMaps(merged, inTurn);
    } else {
      var k :| Separates(a, b, k);
      assert Get(merged, k) != Get(inTurn, k);
    }
  }

  // ---- Write batch ----

  datatype Change = DeleteRow(key: RowKey) | PutRow(key: RowKey, val: RowVal) | PutHead(head: Head)

  function ApplyChange(c: Change, db: Db): Db {
    match c
    case DeleteRow(k) => db.(rows := db.rows - {k})
    case PutRow(k, v) => db.(rows := db.rows[k := v])
    case PutHead(h) => db.(head := Some(h))
  }

  /** The changes of a batch take effect in the order in which they were appended. */
  function WriteBatch(batch: seq<Change>, db: Db): Db {
    if batch == [] then db
    else ApplyChange(batch[|batch| - 1], WriteBatch(batch[..|batch| - 1], db))
  }

  lemma {:induction false} WriteAppend(batch: seq<Change>, c: Change, db: Db)
    ensures WriteBatch(batch + [c], db) == ApplyChange(c, WriteBatch(batch, db))
  {
    assert (batch + [c])[..|batch + [c]| - 1] == batch;
  }

  class IndexStateStore {
    var db: Db

    constructor (db: Db)
      ensures this.db == db
    {
      this.db := db;
    }

    /** Appends one delete per key, in any order. */
    static method DeleteBatch(batch: seq<Change>, keys: set<RowKey>) returns (r: seq<Change>)
      ensures forall db :: WriteBatch(r, db) == WriteBatch(batch, db).(rows := WriteBatch(batch, db).rows - keys)
    {
      r := batch;
      var todo := keys;
      ghost var done: set<RowKey> := {};
      while todo != {}
        invariant todo !! done && todo + done == keys
        invariant forall db :: WriteBatch(r, db) == WriteBatch(batch, db).(rows := WriteBatch(batch, db).rows - done)
      {
        var k :| k in todo;
        forall db
          ensures WriteBatch(r + [DeleteRow(k)], db) ==
                  WriteBatch(batch, db).(rows := WriteBatch(batch, db).rows - (done + {k}))
        {
          WriteAppend(r, DeleteRow(k), db);
          assert WriteBatch(batch, db).rows - done - {k} == WriteBatch(batch, db).rows - (done + {k});
        }
        r := r + [DeleteRow(k)];
        todo, done := todo - {k}, done + {k};
      }
      assert done == keys;
    }

    /** Appends one put per row, in any order. */
    static method InsertBatch(batch: seq<Change>, rows: Rows) returns (r: seq<Change>)
      ensures forall db :: WriteBatch(r, db) == WriteBatch(batch, db).(rows := WriteBatch(batch, db).rows + rows)
    {
      r := batch;
      var todo := rows.Keys;
      ghost var done: Rows := map[];
      while todo != {}
        invariant todo !! done.Keys && todo + done.Keys == rows.Keys
        invariant forall k :: k in done ==> k in rows && done[k] == rows[k]
        invariant forall db :: WriteBatch(r, db) == WriteBatch(batch, db).(rows := WriteBatch(batch, db).rows + done)
      {
        var k :| k in todo;
        var c := PutRow(k, rows[k]);
        forall db
          ensures WriteBatch(r + [c], db) ==
                  WriteBatch(batch, db).(rows := WriteBatch(batch, db).rows + done[k := rows[k]])
        {
          WriteAppend(r, c, db);
          assert (WriteBatch(batch, db).rows + done)[k := rows[k]] == WriteBatch(batch, db).rows + done[k := rows[k]];
        }
        r := r + [c];
        todo, done := todo - {k}, done[k := rows[k]];
      }
      assert done == rows;
    }

    /** Reads the current keys for a full replace, and writes nothing: any later state may get the batch. */
    method BuildIndexWriteBatch(ws: WriteSet) returns (batch: seq<Change>)
      ensures forall later :: WriteBatch(batch, later) == BuiltEffect(db.rows.Keys, ws, later)
    {
      batch := [];
      if ws.fullReplace {
        batch := DeleteBatch(batch, db.rows.Keys);
      }
      batch := DeleteBatch(batch, ws.delta.del);
      batch := InsertBatch(batch, ws.delta.store);
      var head := PutHead(Head(ws.blockNum, ws.digest));
      forall later
        ensures WriteBatch(batch + [head], later) == BuiltEffect(db.rows.Keys, ws, later)
      {
        WriteAppend(batch, head, later);
      }
      batch := batch + [head];
    }

    method Write(batch: seq<Change>)
      modifies this
      ensures db == WriteBatch(batch, old(db))
    {
      var i := 0;
      while i < |batch|
        invariant 0 <= i <= |batch|
        invariant db == WriteBatch(batch[..i], old(db))
      {
        db := ApplyChange(batch[i], db);
        WriteAppend(batch[..i], batch[i], old(db));
        assert batch[..i + 1] == batch[..i] + [batch[i]];
        i := i + 1;
      }
      assert batch[..i] == batch;
    }

    method ApplyIndexWriteSet(ws: WriteSet)
      modifies this
      ensures db == ApplyWriteSet(ws, old(db))
    {
      var batch := BuildIndexWriteBatch(ws);
      Write(batch);
    }
  }

  /**
   A full replace leaves exactly the stored rows if and only if every row present at write time was
   already present when the batch was built, or is deleted or stored by the set itself.
   */
  lemma FullReplaceIsExact(seen: set<RowKey>, ws: WriteSet, db: Db)
    requires ws.fullReplace
    ensures BuiltEffect(seen, ws, db).rows == ws.delta.store
            <==> db.rows.Keys <= seen + ws.delta.Keys()
  {
    var after := BuiltEffect(seen, ws, db).rows;
    if db.rows.Keys <= seen + ws.delta.Keys() {
      assert after == ws.delta.store;
    } else {
      var k :| k in db.rows.Keys && k !in seen + ws.delta.Keys();
      assert k in after;
    }
  }
}
