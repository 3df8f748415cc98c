/** Batching committed leaves of all sources into Merkle trees and anchoring their roots
    (labeling/anchor.py). Names and row ids are numbers in their sort order. */
module Anchor {
  import opened Common
  import Merkle
  import Sets

  /** A row of one of the registered source tables. */
  datatype Key = Key(source: Id, id: Id)

  /** The leaf is set at insertion or never; batch and index are set together, once. */
  datatype Row = Row(orderedAt: int, leaf: Option<Merkle.Digest>, batch: Option<Id>, index: nat)

  datatype Item = Item(orderedAt: int, key: Key, leaf: Merkle.Digest)

  datatype Batch = Batch(root: Merkle.Digest, count: nat, createdAt: int, tx: Option<Id>, block: Option<nat>,
                         lease: Option<int>, attempts: nat)

  /** A finalized transaction: the data it carried and whether it succeeded. */
  datatype Tx = Tx(data: Merkle.Digest, ok: bool)

  /** The tables, the chain, and for each batch the order in which it was sealed. */
  datatype Db = Db(rows: map<Key, Row>, batches: map<Id, Batch>, chain: map<Id, Tx>, order: map<Id, seq<Item>>)

  const EMPTY := Db(map[], map[], map[], map[])

  const MAX_BATCH_LEAVES := 4096
  const SEND_LEASE := 900 * SECOND

  /* ---- the order of pending leaves ---- */

  predicate Before(a: Item, b: Item) {
    || a.orderedAt < b.orderedAt
    || (a.orderedAt == b.orderedAt && a.key.source < b.key.source)
    || (a.orderedAt == b.orderedAt && a.key.source == b.key.source && a.key.id < b.key.id)
  }

  predicate InOrder(items: seq<Item>) {
    forall i, j :: 0 <= i < j < |items| ==> Before(items[i], items[j])
  }

  function Elements(items: seq<Item>): set<Item> {
    set x | x in items
  }

  /** The first n of a set of items, in order. */
  ghost predicate IsFirst(items: seq<Item>, all: set<Item>, n: nat) {
    && InOrder(items)
    && (forall x :: x in items ==> x in all)
    && |items| <= n
    && (|items| < n ==> forall x :: x in all ==> x in items)
    && (forall x, y :: x in items && y in all && y !in items ==> Before(x, y))
  }

  /** The sort keys of a set of items tell them apart. */
  ghost predicate Comparable(all: set<Item>) {
    forall x, y :: x in all && y in all && x != y ==> Before(x, y) || Before(y, x)
  }

  predicate Unanchored(row: Row) {
    row.leaf.Some? && row.batch.None?
  }

  function ItemOf(rows: map<Key, Row>, k: Key): Item
    requires k in rows && rows[k].leaf.Some?
  {
    Item(rows[k].orderedAt, k, rows[k].leaf.value)
  }

  /** All pending leaves, and those of one source. */
  function Pending(rows: map<Key, Row>): set<Item> {
    set k | k in rows && Unanchored(rows[k]) :: ItemOf(rows, k)
  }

  function PendingOf(rows: map<Key, Row>, source: Id): set<Item> {
    set k | k in rows && Unanchored(rows[k]) && k.source == source :: ItemOf(rows, k)
  }

  lemma PendingIsComparable(rows: map<Key, Row>)
    ensures Comparable(Pending(rows))
  {
    forall x, y | x in Pending(rows) && y in Pending(rows) && x != y ensures Before(x, y) || Before(y, x) {
      assert x == ItemOf(rows, x.key) && y == ItemOf(rows, y.key);
    }
  }

  lemma {:induction false} ElementsSize(items: seq<Item>)
    requires InOrder(items)
    ensures |Elements(items)| == |items|
    decreases |items|
  {
    if items != [] {
      var last := items[|items| - 1];
      ElementsSize(items[..|items| - 1]);
      assert items == items[..|items| - 1] + [last];
      assert Elements(items) == Elements(items[..|items| - 1]) + {last};
    }
  }

  lemma Fewer(small: set<Item>, big: set<Item>, x: Item)
    requires small <= big && x in big && x !in small
    ensures |small| < |big|
  {
    assert small <= big - {x};
    Sets.SubsetSize(small, big - {x});
  }

  lemma FirstHead(a: seq<Item>, b: seq<Item>, all: set<Item>, n: nat)
    requires Comparable(all) && IsFirst(a, all, n) && IsFirst(b, all, n) && a != [] && b != []
    ensures a[0] in b && !Before(b[0], a[0])
  {
    var x, y := a[0], b[0];
    assert x in a && y in b;
    assert y in a ==> y == x || Before(x, y);
    assert x in b ==> y == x || Before(y, x);
  }

  lemma FirstEmpty(a: seq<Item>, b: seq<Item>, all: set<Item>, n: nat)
    requires IsFirst(a, all, n) && IsFirst(b, all, n)
    ensures a == [] ==> b == []
  {
    assert b != [] ==> b[0] in b;
  }

  /** There is only one such sequence. */
  lemma {:induction false} FirstIsUnique(a: seq<Item>, b: seq<Item>, all: set<Item>, n: nat)
    requires Comparable(all) && IsFirst(a, all, n) && IsFirst(b, all, n)
    ensures a == b
    decreases n
  {
    FirstEmpty(a, b, all, n);
    FirstEmpty(b, a, all, n);
    if a != [] && b != [] {
      FirstHead(a, b, all, n);
      FirstHead(b, a, all, n);
      assert a[0] !in a[1..] && a[0] !in b[1..];
      FirstIsUnique(a[1..], b[1..], all - {a[0]}, n - 1);
      assert a == [a[0]] + a[1..] && b == [b[0]] + b[1..];
    }
  }

  /** Taking only the first n rows of each source loses nothing: the first n of what was taken are
      the first n of everything pending. */
  lemma PrefixesLoseNothing(rows: map<Key, Row>, parts: map<Id, seq<Item>>, taken: set<Item>, chosen: seq<Item>, n: nat)
    requires forall k :: k in rows ==> k.source in parts
    requires forall s :: s in parts ==> IsFirst(parts[s], PendingOf(rows, s), n)
    requires forall x :: x in taken <==> exists s :: s in parts && x in parts[s]
    requires IsFirst(chosen, taken, n)
    ensures IsFirst(chosen, Pending(rows), n)
  {
    PendingIsComparable(rows);
    assert taken <= Pending(rows);
    forall y | y in Pending(rows) && y !in taken ensures |chosen| == n && forall x :: x in chosen ==> Before(x, y) {
      var part := parts[y.key.source];
      assert y in PendingOf(rows, y.key.source) && y !in part;
      assert |part| == n && forall p :: p in part ==> p in taken && Before(p, y);
      FullPartFillsChoice(part, chosen, taken, n);
      forall x | x in chosen ensures Before(x, y) {
        LateChoiceIsImpossible(part, chosen, taken, Pending(rows), x, y, n);
      }
    }
  }

  lemma FullPartFillsChoice(part: seq<Item>, chosen: seq<Item>, taken: set<Item>, n: nat)
    requires InOrder(part) && |part| == n && (forall p :: p in part ==> p in taken) && IsFirst(chosen, taken, n)
    ensures |chosen| == n
  {
    if |chosen| < n {
      assert Elements(part) <= Elements(chosen);
      Sets.SubsetSize(Elements(part), Elements(chosen));
      ElementsSize(part);
      ElementsSize(chosen);
    }
  }

  lemma LateChoiceIsImpossible(part: seq<Item>, chosen: seq<Item>, taken: set<Item>, all: set<Item>, x: Item, y: Item,
                               n: nat)
    requires InOrder(part) && |part| == n && (forall p :: p in part ==> p in taken && Before(p, y))
    requires IsFirst(chosen, taken, n) && Comparable(all) && taken <= all && x in chosen && y in all && y !in taken
    ensures Before(x, y)
  {
    if !Before(x, y) {
      assert Before(y, x) && x !in part;
      forall p | p in part ensures p in chosen {
        assert p !in chosen ==> Before(x, p);
      }
      Fewer(Elements(part), Elements(chosen), x);
      ElementsSize(part);
      ElementsSize(chosen);
    }
  }

  /* ---- the transactions ---- */

  function LeavesOf(items: seq<Item>): (leaves: seq<Merkle.Digest>)
    ensures |leaves| == |items| && forall i :: 0 <= i < |items| ==> leaves[i] == items[i].leaf
  {
    seq(|items|, i requires 0 <= i < |items| => items[i].leaf)
  }

  predicate Selected(items: seq<Item>, k: Key) {
    exists i :: 0 <= i < |items| && items[i].key == k
  }

  /** The position of a selected row in the batch. */
  function IndexOf(items: seq<Item>, k: Key): (index: nat)
    requires Selected(items, k)
    ensures index < |items| && items[index].key == k
    decreases |items|
  {
    if items[0].key == k then 0
    else
      assert forall i :: 0 < i < |items| ==> items[i] == items[1..][i - 1];
      1 + IndexOf(items[1..], k)
  }

  function AssignRows(rows: map<Key, Row>, items: seq<Item>, b: Id): map<Key, Row> {
    map k | k in rows :: if k in rows && Selected(items, k)
        then rows[k].(batch := Some(b), index := IndexOf(items, k)) else rows[k]
  }

  /** Insertion of a committed or uncommitted row. */
  function Insert(db: Db, k: Key, orderedAt: int, leaf: Option<Merkle.Digest>): Db {
    if k in db.rows then db else db.(rows := db.rows[k := Row(orderedAt, leaf, None, 0)])
  }

  /** Retention may delete what was never committed. */
  function Delete(db: Db, k: Key): Db {
    if k in db.rows && db.rows[k].leaf.None? then db.(rows := db.rows - {k}) else db
  }

  /** Seals the first pending leaves into a new batch; a batch id that exists rolls it back. */
  ghost function Seal(db: Db, b: Id, chosen: seq<Item>, now: int): Db {
    if b in db.batches || chosen == [] || !IsFirst(chosen, Pending(db.rows), MAX_BATCH_LEAVES) then db
    else
      db.(rows := AssignRows(db.rows, chosen, b),
          batches := db.batches[b := Batch(Merkle.TreeRoot(LeavesOf(chosen)), |chosen|, now, None, None, None, 0)],
          order := db.order[b := chosen])
  }

  predicate Unsent(batch: Batch, now: int) {
    batch.tx.None? && batch.block.None? && (batch.lease.None? || batch.lease.value <= now)
  }

  function ClaimUnsent(db: Db, b: Id, now: int): Db {
    if b in db.batches && Unsent(db.batches[b], now)
    then db.(batches := db.batches[b := db.batches[b].(lease := Some(now + SEND_LEASE),
                                                       attempts := db.batches[b].attempts + 1)])
    else db
  }

  function RecordSubmission(db: Db, b: Id, tx: Id): Db {
    if b in db.batches && db.batches[b].tx.None?
        then db.(batches := db.batches[b := db.batches[b].(tx := Some(tx))]) else db
  }

  function ReleaseUnsent(db: Db, b: Id): Db {
    if b in db.batches && db.batches[b].tx.None?
        then db.(batches := db.batches[b := db.batches[b].(lease := None)]) else db
  }

  function ResetSubmission(db: Db, b: Id, tx: Id): Db {
    if b in db.batches && db.batches[b].tx == Some(tx) && db.batches[b].block.None?
    then db.(batches := db.batches[b := db.batches[b].(tx := None, lease := None)])
    else db
  }

  /** The confirmation check: the finalized transaction succeeded and carried the root as read. */
  function RecordConfirmation(db: Db, b: Id, root: Merkle.Digest, tx: Id, block: nat): Db {
    if b in db.batches && db.batches[b].tx == Some(tx) && db.batches[b].block.None?
       && tx in db.chain && db.chain[tx] == Tx(root, true)
    then db.(batches := db.batches[b := db.batches[b].(block := Some(block), lease := None)])
    else db
  }

  /** The chain finalizes a transaction, once. */
  function Finalize(db: Db, tx: Id, result: Tx): Db {
    if tx in db.chain then db else db.(chain := db.chain[tx := result])
  }

  datatype Op =
    | InsertOp(k: Key, orderedAt: int, leaf: Option<Merkle.Digest>)
    | DeleteOp(k: Key)
    | SealOp(b: Id, chosen: seq<Item>, now: int)
    | ClaimUnsentOp(b: Id, now: int)
    | RecordSubmissionOp(b: Id, tx: Id)
    | ReleaseUnsentOp(b: Id)
    | ResetSubmissionOp(b: Id, tx: Id)
    | RecordConfirmationOp(b: Id, tx: Id, block: nat)
    | FinalizeOp(tx: Id, result: Tx)

  /** The worker reads the root of the batch it confirms from its own table. */
  ghost function Apply(db: Db, op: Op): Db {
    match op
    case InsertOp(k, orderedAt, leaf) => Insert(db, k, orderedAt, leaf)
    case DeleteOp(k) => Delete(db, k)
    case SealOp(b, chosen, now) => Seal(db, b, chosen, now)
    case ClaimUnsentOp(b, now) => ClaimUnsent(db, b, now)
    case RecordSubmissionOp(b, tx) => RecordSubmission(db, b, tx)
    case ReleaseUnsentOp(b) => ReleaseUnsent(db, b)
    case ResetSubmissionOp(b, tx) => ResetSubmission(db, b, tx)
    case RecordConfirmationOp(b, tx, block) =>
        if b in db.batches then RecordConfirmation(db, b, db.batches[b].root, tx, block) else db
    case FinalizeOp(tx, result) => Finalize(db, tx, result)
  }

  ghost function Run(db: Db, ops: seq<Op>): Db
    decreases |ops|
  {
    if ops == [] then db else Run(Apply(db, ops[0]), ops[1..])
  }

  /* ---- what every run keeps ---- */

  /** An anchored row sits at its index of its batch. */
  ghost predicate RowOk(db: Db, k: Key)
    requires k in db.rows
  {
    var row := db.rows[k];
    row.batch.Some? ==>
      && row.leaf.Some?
      && row.batch.value in db.order && row.index < |db.order[row.batch.value]|
      && db.order[row.batch.value][row.index] == ItemOf(db.rows, k)
  }

  /** The row is in the batch at this index. */
  predicate SitsAt(rows: map<Key, Row>, k: Key, b: Id, i: nat) {
    k in rows && rows[k].batch == Some(b) && rows[k].index == i
  }

  /** A batch commits to its rows, in order, and a confirmed one to a transaction with its root. */
  ghost predicate BatchOk(db: Db, b: Id)
    requires b in db.batches
  {
    var batch := db.batches[b];
    && b in db.order
    && InOrder(db.order[b])
    && 0 < batch.count == |db.order[b]| <= MAX_BATCH_LEAVES
    && batch.root == Merkle.TreeRoot(LeavesOf(db.order[b]))
    && (forall i :: 0 <= i < batch.count ==> SitsAt(db.rows, db.order[b][i].key, b, i))
    && (batch.block.Some? ==>
          && batch.tx.Some? && batch.tx.value in db.chain
          && db.chain[batch.tx.value] == Tx(batch.root, true))
  }

  ghost predicate Inv(db: Db) {
    && db.order.Keys == db.batches.Keys
    && (forall k {:trigger RowOk(db, k)} :: k in db.rows ==> RowOk(db, k))
    && (forall b {:trigger BatchOk(db, b)} :: b in db.batches ==> BatchOk(db, b))
  }

  lemma {:induction false} IndexOfOnly(items: seq<Item>, i: nat)
    requires i < |items| && forall j, l :: 0 <= j < l < |items| ==> items[j].key != items[l].key
    ensures Selected(items, items[i].key) && IndexOf(items, items[i].key) == i
  {
  }

  /** Different items of one table have different keys. */
  lemma ChosenKeysDiffer(rows: map<Key, Row>, chosen: seq<Item>)
    requires InOrder(chosen) && forall x :: x in chosen ==> x in Pending(rows)
    ensures forall j, l :: 0 <= j < l < |chosen| ==> chosen[j].key != chosen[l].key
  {
    forall j, l | 0 <= j < l < |chosen| ensures chosen[j].key != chosen[l].key {
      assert chosen[j] in Pending(rows) && chosen[l] in Pending(rows);
      assert chosen[j] == ItemOf(rows, chosen[j].key) && chosen[l] == ItemOf(rows, chosen[l].key);
    }
  }

  lemma SelectedIsPending(rows: map<Key, Row>, chosen: seq<Item>, k: Key)
    requires Selected(chosen, k) && forall x :: x in chosen ==> x in Pending(rows)
    ensures k in rows && Unanchored(rows[k])
    ensures chosen[IndexOf(chosen, k)] == ItemOf(rows, k)
  {
    assert chosen[IndexOf(chosen, k)] in Pending(rows);
  }

  lemma SealKeepsInv(db: Db, b: Id, chosen: seq<Item>, now: int)
    requires Inv(db)
    ensures Inv(Seal(db, b, chosen, now))
  {
    hide IndexOf, InOrder;
    var db' := Seal(db, b, chosen, now);
    if db' != db {
      ChosenKeysDiffer(db.rows, chosen);
      forall k | k in db'.rows ensures RowOk(db', k) {
        assert RowOk(db, k);
        if Selected(chosen, k) {
          SelectedIsPending(db.rows, chosen, k);
        }
      }
      forall i | 0 <= i < |chosen| ensures SitsAt(db'.rows, chosen[i].key, b, i) {
        assert chosen[i] in Pending(db.rows);
        IndexOfOnly(chosen, i);
      }
      forall c | c in db'.batches ensures BatchOk(db', c) {
        if c != b {
          assert BatchOk(db, c);
          forall i | 0 <= i < db.batches[c].count ensures SitsAt(db'.rows, db.order[c][i].key, c, i) {
            if Selected(chosen, db.order[c][i].key) {
              SelectedIsPending(db.rows, chosen, db.order[c][i].key);
            }
          }
        }
      }
    }
  }

  lemma TableKeepsInv(db: Db, op: Op)
    requires Inv(db) && (op.InsertOp? || op.DeleteOp?)
    ensures Inv(Apply(db, op))
  {
    hide InOrder, Seal;
    var db' := Apply(db, op);
    forall j | j in db'.rows ensures RowOk(db', j) {
      assert j in db.rows ==> RowOk(db, j);
    }
    forall b | b in db'.batches ensures BatchOk(db', b) {
      assert BatchOk(db, b);
      assert forall i :: 0 <= i < db.batches[b].count ==> RowOk(db, db.order[b][i].key);
    }
  }

  /** Writes to one batch row that keep its root and size, and leave a confirmed row alone. */
  lemma BatchWriteKeepsInv(db: Db, b: Id, batch: Batch)
    requires Inv(db) && b in db.batches && batch.root == db.batches[b].root && batch.count == db.batches[b].count
    requires batch.block.Some? ==>
        batch.tx.Some? && batch.tx.value in db.chain && db.chain[batch.tx.value] == Tx(batch.root, true)
    ensures Inv(db.(batches := db.batches[b := batch]))
  {
    var db' := db.(batches := db.batches[b := batch]);
    forall k | k in db'.rows ensures RowOk(db', k) {
      assert RowOk(db, k);
    }
    forall c | c in db'.batches ensures BatchOk(db', c) {
      assert BatchOk(db, c);
    }
  }

  lemma FinalizeKeepsInv(db: Db, tx: Id, result: Tx)
    requires Inv(db)
    ensures Inv(Finalize(db, tx, result))
  {
    var db' := Finalize(db, tx, result);
    forall k | k in db'.rows ensures RowOk(db', k) {
      assert RowOk(db, k);
    }
    forall b | b in db'.batches ensures BatchOk(db', b) {
      assert BatchOk(db, b);
    }
  }

  lemma ApplyKeepsInv(db: Db, op: Op)
    requires Inv(db)
    ensures Inv(Apply(db, op))
  {
    match op
    case InsertOp(_, _, _) => TableKeepsInv(db, op);
    case DeleteOp(_) => TableKeepsInv(db, op);
    case SealOp(b, chosen, now) => SealKeepsInv(db, b, chosen, now);
    case FinalizeOp(tx, result) => FinalizeKeepsInv(db, tx, result);
    case _ =>
      if op.b in db.batches {
        assert BatchOk(db, op.b);
        BatchWriteKeepsInv(db, op.b, Apply(db, op).batches[op.b]);
        assert Apply(db, op).batches == db.batches[op.b := Apply(db, op).batches[op.b]];
      }
  }

  lemma {:induction false} RunKeepsInv(db: Db, ops: seq<Op>)
    requires Inv(db)
    ensures Inv(Run(db, ops))
    decreases |ops|
  {
    if ops != [] {
      ApplyKeepsInv(db, ops[0]);
      RunKeepsInv(Apply(db, ops[0]), ops[1..]);
    }
  }

  /* ---- what a run means for a leaf ---- */

  predicate HasIndex(rows: map<Key, Row>, b: Id, i: nat) {
    exists k :: k in rows && rows[k].batch == Some(b) && rows[k].index == i
  }

  /** The rows of a batch have exactly the indices below its size, each once. */
  ghost predicate Complete(rows: map<Key, Row>, b: Id, count: nat) {
    && (forall k :: k in rows && rows[k].batch == Some(b) ==> rows[k].leaf.Some? && rows[k].index < count)
    && (forall j, k | j in rows && k in rows ::
          rows[j].batch == rows[k].batch == Some(b) && rows[j].index == rows[k].index ==> j == k)
    && (forall i :: 0 <= i < count ==> HasIndex(rows, b, i))
  }

  /** The leaves read back: each at the index its row carries. */
  ghost predicate ReadsBack(rows: map<Key, Row>, b: Id, leaves: seq<Merkle.Digest>) {
    && Complete(rows, b, |leaves|)
    && forall k :: k in rows && rows[k].batch == Some(b) ==> rows[k].leaf == Some(leaves[rows[k].index])
  }

  lemma BatchReadsBack(db: Db, b: Id)
    requires Inv(db) && b in db.batches
    ensures ReadsBack(db.rows, b, LeavesOf(db.order[b])) && |db.order[b]| == db.batches[b].count
  {
    assert BatchOk(db, b);
    forall k | k in db.rows && db.rows[k].batch == Some(b)
      ensures db.rows[k].leaf.Some? && db.rows[k].index < |db.order[b]|
      ensures db.order[b][db.rows[k].index] == ItemOf(db.rows, k)
    {
      assert RowOk(db, k);
    }
    forall i | 0 <= i < |db.order[b]| ensures HasIndex(db.rows, b, i) {
      assert db.order[b][i].key in db.rows;
    }
  }

  /** What is read back is determined by the table. */
  lemma ReadBackIsUnique(rows: map<Key, Row>, b: Id, x: seq<Merkle.Digest>, y: seq<Merkle.Digest>)
    requires ReadsBack(rows, b, x) && ReadsBack(rows, b, y)
    ensures x == y
  {
    assert |x| < |y| ==> HasIndex(rows, b, |x|);
    assert |y| < |x| ==> HasIndex(rows, b, |y|);
    forall i | 0 <= i < |x| ensures x[i] == y[i] {
      assert HasIndex(rows, b, i);
      var k :| k in rows && rows[k].batch == Some(b) && rows[k].index == i;
      assert rows[k].leaf == Some(x[i]);
    }
  }

  /** After any run, whatever leaves a batch reads back as: a proof for an anchored row verifies
      against the stored root exactly when it is the row's leaf with its audit path. */
  lemma AnchoredLeafVerifies(ops: seq<Op>, k: Key, leaves: seq<Merkle.Digest>, leaf: Merkle.Hex, path: seq<Merkle.Hex>)
    requires k in Run(EMPTY, ops).rows && Run(EMPTY, ops).rows[k].batch.Some?
    requires ReadsBack(Run(EMPTY, ops).rows, Run(EMPTY, ops).rows[k].batch.value, leaves)
    ensures var db := Run(EMPTY, ops);
            var row := db.rows[k];
            && row.batch.value in db.batches && row.leaf.Some?
                && row.index < |leaves| == db.batches[row.batch.value].count
            && (Merkle.Accepts(leaf, row.index, |leaves|, path, Merkle.Valid(db.batches[row.batch.value].root))
                <==> leaf == Merkle.Valid(row.leaf.value) && path == Merkle.AllHex(Merkle.TreePath(leaves, row.index)))
  {
    var db := Run(EMPTY, ops);
    RunKeepsInv(EMPTY, ops);
    assert RowOk(db, k);
    var b := db.rows[k].batch.value;
    assert BatchOk(db, b);
    BatchReadsBack(db, b);
    ReadBackIsUnique(db.rows, b, leaves, LeavesOf(db.order[b]));
    Merkle.VerifierAcceptsExactlyAuditPaths(leaves, leaf, db.rows[k].index, path);
  }

  /** No leaf is in two batches, and each batch's indices are exactly those below its size. */
  lemma BatchesPartitionLeaves(ops: seq<Op>)
    ensures var db := Run(EMPTY, ops);
            && db.order.Keys == db.batches.Keys
            && (forall b :: b in db.batches ==>
                Complete(db.rows, b, db.batches[b].count) && 0 < db.batches[b].count <= MAX_BATCH_LEAVES)
            && (forall b, c, i, j ::
                b in db.batches && c in db.batches && 0 <= i < |db.order[b]| && 0 <= j < |db.order[c]| ==>
                  db.order[b][i].key == db.order[c][j].key ==> b == c && i == j)
  {
    var db := Run(EMPTY, ops);
    RunKeepsInv(EMPTY, ops);
    forall b | b in db.batches ensures Complete(db.rows, b, db.batches[b].count) && BatchOk(db, b) {
      assert BatchOk(db, b);
      BatchReadsBack(db, b);
    }
  }

  /** Root, size and members of a batch never change, and a confirmed batch never changes its transaction. */
  ghost predicate Frozen(before: Db, after: Db) {
    && (forall b :: b in before.batches && b in before.order ==>
          && b in after.batches && b in after.order
          && after.batches[b].root == before.batches[b].root && after.batches[b].count == before.batches[b].count
          && after.order[b] == before.order[b]
          && (before.batches[b].block.Some? ==>
              after.batches[b].block == before.batches[b].block && after.batches[b].tx == before.batches[b].tx))
    && (forall k :: k in before.rows && before.rows[k].batch.Some? ==>
        k in after.rows && after.rows[k] == before.rows[k])
    && (forall k :: k in before.rows && before.rows[k].leaf.Some? ==>
        k in after.rows && after.rows[k].leaf == before.rows[k].leaf
        && after.rows[k].orderedAt == before.rows[k].orderedAt)
  }

  lemma BatchWriteFreezes(db: Db, b: Id, batch: Batch)
    requires b in db.batches && batch.root == db.batches[b].root && batch.count == db.batches[b].count
    requires db.batches[b].block.Some? ==> batch.block == db.batches[b].block && batch.tx == db.batches[b].tx
    ensures Frozen(db, db.(batches := db.batches[b := batch]))
  {
  }

  lemma SealFreezes(db: Db, b: Id, chosen: seq<Item>, now: int)
    requires Inv(db)
    ensures Frozen(db, Seal(db, b, chosen, now))
  {
    forall k | Seal(db, b, chosen, now) != db && Selected(chosen, k) ensures k in db.rows && db.rows[k].batch.None? {
      SelectedIsPending(db.rows, chosen, k);
    }
  }

  lemma TableFreezes(db: Db, op: Op)
    requires Inv(db) && (op.InsertOp? || op.DeleteOp? || op.FinalizeOp?)
    ensures Frozen(db, Apply(db, op))
  {
    assert !op.FinalizeOp? && op.k in db.rows ==> RowOk(db, op.k);
  }

  lemma NothingFreezes(db: Db)
    ensures Frozen(db, db)
  {
  }

  lemma ApplyFreezes(db: Db, op: Op)
    requires Inv(db)
    ensures Frozen(db, Apply(db, op))
  {
    hide Frozen, RowOk;
    match op
    case SealOp(b, chosen, now) => SealFreezes(db, b, chosen, now);
    case InsertOp(_, _, _) => TableFreezes(db, op);
    case DeleteOp(_) => TableFreezes(db, op);
    case FinalizeOp(_, _) => TableFreezes(db, op);
    case _ =>
      if op.b in db.batches {
        assert BatchOk(db, op.b);
        BatchWriteFreezes(db, op.b, Apply(db, op).batches[op.b]);
        assert Apply(db, op).batches == db.batches[op.b := Apply(db, op).batches[op.b]];
      } else {
        NothingFreezes(db);
      }
  }

  /** Over every further run. */
  lemma {:induction false} RunFreezes(db: Db, ops: seq<Op>)
    requires Inv(db)
    ensures Frozen(db, Run(db, ops))
    decreases |ops|
  {
    if ops != [] {
      var next := Apply(db, ops[0]);
      ApplyFreezes(db, ops[0]);
      ApplyKeepsInv(db, ops[0]);
      RunFreezes(next, ops[1..]);
    }
  }
}
