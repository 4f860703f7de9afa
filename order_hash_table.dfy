/**
 * The `order_hashes` table that the order-created webhook writes
 * (server/api/webhooks/index.ts, created at lines 50-57). Its `id` is the
 * AUTOINCREMENT primary key; `order_id` and `order_hash` are non-null text,
 * each UNIQUE; `created_at` defaults to the insertion time and is not
 * modelled.
 *
 * `Table` is the table as a value and the functions on it say what
 * `CREATE TABLE IF NOT EXISTS` and `INSERT` do; `OrderHashesStore` holds
 * the same state in fields and its methods perform those statements.
 */
module OrderHashTable {

  /** One row; `id` is the AUTOINCREMENT key. */
  datatype Row = Row(id: nat, orderId: string, orderHash: string)

  /**
   * Whether the table exists, its rows in insertion order, and the largest
   * id ever handed out (SQLite's `sqlite_sequence` entry; 0 before the first row).
   */
  datatype Table = Table(created: bool, rows: seq<Row>, lastId: nat)

  /** Why an INSERT was refused. */
  datatype InsertError = NoSuchTable | DuplicateOrderId | DuplicateOrderHash

  datatype InsertOutcome = Inserted(id: nat) | Rejected(error: InsertError)

  /** No table yet: what a fresh database holds. */
  const Empty := Table(false, [], 0)

  predicate HasOrderId(rows: seq<Row>, orderId: string) {
    exists i :: 0 <= i < |rows| && rows[i].orderId == orderId
  }

  predicate HasOrderHash(rows: seq<Row>, orderHash: string) {
    exists i :: 0 <= i < |rows| && rows[i].orderHash == orderHash
  }

  /** The UNIQUE constraints on `order_id` and `order_hash`. */
  predicate Unique(rows: seq<Row>) {
    forall i, j :: 0 <= i < j < |rows| ==>
      rows[i].orderId != rows[j].orderId && rows[i].orderHash != rows[j].orderHash
  }

  /**
   * What every reachable table satisfies: a table that does not exist has no
   * rows; ids are positive, at most `lastId`, and increase in insertion order;
   * and both UNIQUE constraints hold.
   */
  predicate Wellformed(t: Table) {
    && (!t.created ==> t.rows == [])
    && (forall i :: 0 <= i < |t.rows| ==> 0 < t.rows[i].id <= t.lastId)
    && (forall i, j :: 0 <= i < j < |t.rows| ==> t.rows[i].id < t.rows[j].id)
    && Unique(t.rows)
  }

  /** `CREATE TABLE IF NOT EXISTS order_hashes (...)`: creates the table when absent; rows are never touched. */
  function CreateIfNotExists(t: Table): (r: Table)
    ensures r.created
    ensures r.rows == t.rows && r.lastId == t.lastId
    ensures t.created ==> r == t
    ensures Wellformed(t) ==> Wellformed(r)
  {
    t.(created := true)
  }

  /**
   * `INSERT INTO order_hashes (order_id, order_hash) VALUES (?, ?)`. A refused
   * INSERT changes nothing, not even the AUTOINCREMENT counter; an accepted
   * one appends one row with the next id. These gap-free ids are a modelling
   * choice: SQLite promises only increasing ids that are never reused, and the
   * handler never reads them. When both values collide, which
   * violation the database names is not fixed by the handler, which only logs
   * it; this model reports `DuplicateOrderId`.
   */
  function Insert(t: Table, orderId: string, orderHash: string): (r: (Table, InsertOutcome))
    ensures r.1.Inserted? <==> t.created && !HasOrderId(t.rows, orderId) && !HasOrderHash(t.rows, orderHash)
    ensures r.1 == Rejected(DuplicateOrderId) <==> t.created && HasOrderId(t.rows, orderId)
    ensures r.1 == Rejected(DuplicateOrderHash) <==>
      t.created && !HasOrderId(t.rows, orderId) && HasOrderHash(t.rows, orderHash)
    ensures r.1.Rejected? ==> r.0 == t
  {
    if !t.created then (t, Rejected(NoSuchTable))
    else if HasOrderId(t.rows, orderId) then (t, Rejected(DuplicateOrderId))
    else if HasOrderHash(t.rows, orderHash) then (t, Rejected(DuplicateOrderHash))
    else
      var id := t.lastId + 1;
      (Table(true, t.rows + [Row(id, orderId, orderHash)], id), Inserted(id))
  }

  /**
   * An accepted INSERT adds exactly one row, holding the given order id and
   * hash, after all existing rows, which are unchanged; afterwards both are
   * found in the table.
   */
  lemma AcceptedInsertAppends(t: Table, orderId: string, orderHash: string)
    requires Insert(t, orderId, orderHash).1.Inserted?
    ensures var (t', outcome) := Insert(t, orderId, orderHash);
      && t'.rows == t.rows + [Row(outcome.id, orderId, orderHash)]
      && outcome.id == t.lastId + 1 == t'.lastId
      && HasOrderId(t'.rows, orderId) && HasOrderHash(t'.rows, orderHash)
  {
    var t' := Insert(t, orderId, orderHash).0;
    assert t'.rows[|t.rows|].orderId == orderId;
  }

  /** INSERT keeps the table well formed: in particular the UNIQUE constraints are never broken. */
  lemma InsertWellformed(t: Table, orderId: string, orderHash: string)
    requires Wellformed(t)
    ensures Wellformed(Insert(t, orderId, orderHash).0)
  {
    var (t', outcome) := Insert(t, orderId, orderHash);
    if outcome.Inserted? {
      var n := |t.rows|;
      forall i | 0 <= i < n
        ensures t'.rows[i].orderId != orderId && t'.rows[i].orderHash != orderHash
      {
        assert t'.rows[i] == t.rows[i];
      }
    }
  }

  /**
   * The table as the webhook's database connection sees it. The fields are
   * the state of `Table`; `Snapshot` gives that value.
   */
  class OrderHashesStore {
    var created: bool
    var rows: seq<Row>
    var lastId: nat

    function Snapshot(): Table
      reads this
    {
      Table(created, rows, lastId)
    }

    predicate Valid()
      reads this
    {
      Wellformed(Snapshot())
    }

    /** A database in which `order_hashes` has not been created yet. */
    constructor ()
      ensures Valid() && Snapshot() == Empty
    {
      created, rows, lastId := false, [], 0;
    }

    /** Runs `CREATE TABLE IF NOT EXISTS`. */
    method EnsureTable()
      requires Valid()
      modifies this
      ensures Valid()
      ensures Snapshot() == CreateIfNotExists(old(Snapshot()))
    {
      created := true;
    }

    /** Runs the INSERT of one `(order_id, order_hash)` pair. */
    method InsertMapping(orderId: string, orderHash: string) returns (outcome: InsertOutcome)
      requires Valid()
      modifies this
      ensures Valid()
      ensures (Snapshot(), outcome) == Insert(old(Snapshot()), orderId, orderHash)
    {
      InsertWellformed(Snapshot(), orderId, orderHash);
      if !created {
        outcome := Rejected(NoSuchTable);
      } else if HasOrderId(rows, orderId) {
        outcome := Rejected(DuplicateOrderId);
      } else if HasOrderHash(rows, orderHash) {
        outcome := Rejected(DuplicateOrderHash);
      } else {
        lastId := lastId + 1;
        rows := rows + [Row(lastId, orderId, orderHash)];
        outcome := Inserted(lastId);
      }
    }
  }
}
