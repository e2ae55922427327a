/** mempool.py: the builder's public mempool. `Pool` is its content, with the
    insertion order that a Python dictionary keeps; `Mempool` is the object,
    whose records are objects updated in place. */
module Mempool {
  import opened Options

  datatype Id = Id(text: string)
  type Transaction = string

  datatype Status = Pending | Included | Reverted | Missing

  datatype Receipt = Receipt(status: Option<string>, blockNumber: Option<string>, transactionIndex: Option<string>)

  datatype Record = Record(
    id: Id,
    seqNum: nat,
    transaction: Transaction,
    status: Status,
    submittedAt: string,
    chainTxHash: Option<string>,
    receipt: Option<Receipt>,
    updatedAt: Option<string>)

  datatype Snapshot = Snapshot(snapshotSeq: nat, transactions: seq<Record>)

  /** What a mined transaction leaves in its record. */
  datatype Mark = Mark(chainTxHash: string, status: Status, receipt: Option<Receipt>, at: string)

  function Marked(r: Record, m: Mark): Record {
    r.(status := m.status, chainTxHash := Some(m.chainTxHash), receipt := m.receipt, updatedAt := Some(m.at))
  }

  /** `order` lists these keys, each once. */
  ghost predicate Orders(order: seq<Id>, keys: set<Id>) {
    && (forall i :: 0 <= i < |order| ==> order[i] in keys)
    && (forall id {:trigger id in order} :: id in keys ==> id in order)
    && (forall i, j :: 0 <= i < j < |order| ==> order[i] != order[j])
  }

  lemma OrdersAppended(order: seq<Id>, keys: set<Id>, id: Id)
    requires Orders(order, keys)
    ensures Orders(if id in keys then order else order + [id], keys + {id})
  {
    if id !in keys {
      var order' := order + [id];
      assert order'[|order|] == id;
      forall k | k in keys ensures k in order' {
        assert k in order;
        var i :| 0 <= i < |order| && order[i] == k;
        assert order'[i] == k;
      }
    }
  }

  datatype Pool = Pool(lastSeqNum: nat, order: seq<Id>, records: map<Id, Record>) {
    ghost predicate Consistent() {
      Orders(order, records.Keys)
    }

    /** Sequence numbers count the records in insertion order, from 1. */
    ghost predicate Numbered() {
      && Consistent()
      && |order| == lastSeqNum
      && forall i :: 0 <= i < |order| ==> records[order[i]].seqNum == i + 1 && records[order[i]].id == order[i]
    }

    function NewRecord(id: Id, tx: Transaction, now: string): Record {
      Record(id, lastSeqNum + 1, tx, Pending, now, None, None, None)
    }

    /** Assigning to a key that exists keeps its place in the order. */
    function Add(id: Id, tx: Transaction, now: string): Pool {
      Pool(lastSeqNum + 1, if id in records then order else order + [id], records[id := NewRecord(id, tx, now)])
    }

    /** `None` stands for the ValueError of an unknown id. */
    function MarkMined(id: Id, m: Mark): Option<Pool> {
      if id !in records then None else Some(this.(records := records[id := Marked(records[id], m)]))
    }

    function PendingSnapshot(): Snapshot
      requires Consistent()
    {
      Snapshot(lastSeqNum, PendingIn(order, records))
    }
  }

  function PendingIn(order: seq<Id>, records: map<Id, Record>): seq<Record>
    requires forall i :: 0 <= i < |order| ==> order[i] in records
  {
    if order == [] then []
    else
      var last := records[order[|order| - 1]];
      PendingIn(order[..|order| - 1], records) + (if last.status == Pending then [last] else [])
  }

  const EmptyPool := Pool(0, [], map[])

  // ---- What the operations promise ----

  lemma {:induction false} PendingInSound(order: seq<Id>, records: map<Id, Record>, r: Record) returns (i: nat)
    requires forall i :: 0 <= i < |order| ==> order[i] in records
    requires r in PendingIn(order, records)
    ensures i < |order| && records[order[i]] == r && r.status == Pending
  {
    var n := |order| - 1;
    if r in PendingIn(order[..n], records) {
      i := PendingInSound(order[..n], records, r);
    } else {
      i := n;
    }
  }

  lemma {:induction false} PendingInComplete(order: seq<Id>, records: map<Id, Record>, i: nat)
    requires forall i :: 0 <= i < |order| ==> order[i] in records
    requires i < |order| && records[order[i]].status == Pending
    ensures records[order[i]] in PendingIn(order, records)
  {
    var n := |order| - 1;
    if i < n {
      PendingInComplete(order[..n], records, i);
    }
  }

  /** The snapshot holds the pending records and only those, none numbered above
      its boundary. */
  lemma SnapshotIsPending(p: Pool, r: Record)
    requires p.Numbered()
    ensures r in p.PendingSnapshot().transactions <==>
            r.id in p.records && p.records[r.id] == r && r.status == Pending
    ensures r in p.PendingSnapshot().transactions ==> 1 <= r.seqNum <= p.PendingSnapshot().snapshotSeq
  {
    if r in p.PendingSnapshot().transactions {
      var i := PendingInSound(p.order, p.records, r);
    } else if r.id in p.records && p.records[r.id] == r && r.status == Pending {
      assert r.id in p.order;
      var i :| 0 <= i < |p.order| && p.order[i] == r.id;
      PendingInComplete(p.order, p.records, i);
    }
  }

  /** Numbers ascend, within these bounds. */
  ghost predicate Ascend(rs: seq<Record>, low: nat, high: nat) {
    && (forall i :: 0 <= i < |rs| ==> low <= rs[i].seqNum < high)
    && forall i, j :: 0 <= i < j < |rs| ==> rs[i].seqNum < rs[j].seqNum
  }

  lemma {:induction false} PendingInOrder(order: seq<Id>, records: map<Id, Record>, first: nat)
    requires forall i :: 0 <= i < |order| ==> order[i] in records
    requires forall i :: 0 <= i < |order| ==> records[order[i]].seqNum == first + i
    ensures Ascend(PendingIn(order, records), first, first + |order|)
  {
    if order != [] {
      var n := |order| - 1;
      PendingInOrder(order[..n], records, first);
      assert records[order[n]].seqNum == first + n;
    }
  }

  /** A snapshot lists its records in the order of their numbers, each once. */
  lemma SnapshotIsOrdered(p: Pool)
    requires p.Numbered()
    ensures Ascend(p.PendingSnapshot().transactions, 1, p.lastSeqNum + 1)
  {
    assert forall i :: 0 <= i < |p.order| ==> p.records[p.order[i]].seqNum == 1 + i;
    PendingInOrder(p.order, p.records, 1);
  }

  /** Adding under a fresh id numbers the new record next, pending and with what was
      submitted, and leaves every other record as it was. */
  lemma AddKeepsNumbered(p: Pool, id: Id, tx: Transaction, now: string)
    requires p.Numbered() && id !in p.records
    ensures p.Add(id, tx, now).Numbered()
    ensures var p' := p.Add(id, tx, now);
            && p'.lastSeqNum == p.lastSeqNum + 1 && p'.order == p.order + [id] && id in p'.records
            && var r := p'.records[id];
            && r.seqNum == p'.lastSeqNum && r.transaction == tx && r.submittedAt == now && r.status == Pending
            && r.chainTxHash.None? && r.receipt.None? && r.updatedAt.None?
    ensures forall k :: k in p.records ==>
              k in p.Add(id, tx, now).records && p.Add(id, tx, now).records[k] == p.records[k]
  {
    OrdersAppended(p.order, p.records.Keys, id);
    assert p.Add(id, tx, now).records.Keys == p.records.Keys + {id};
  }

  /** Marking succeeds exactly for a known id, sets that record's result and leaves
      its identity and every other record alone. */
  lemma MarkKeepsNumbered(p: Pool, id: Id, m: Mark)
    requires p.Numbered()
    ensures p.MarkMined(id, m).Some? <==> id in p.records
    ensures p.MarkMined(id, m).Some? ==>
              var p' := p.MarkMined(id, m).value;
              && p'.Numbered() && p'.order == p.order && p'.records.Keys == p.records.Keys
              && (forall k :: k in p.records && k != id ==> p'.records[k] == p.records[k])
              && var r, r' := p.records[id], p'.records[id];
              && r'.id == r.id && r'.seqNum == r.seqNum
              && r'.transaction == r.transaction && r'.submittedAt == r.submittedAt
              && r'.status == m.status && r'.chainTxHash == Some(m.chainTxHash)
              && r'.receipt == m.receipt && r'.updatedAt == Some(m.at)
  {
  }

  // ---- The objects ----

  class MempoolRecord {
    const mempoolTxId: Id
    const seqNum: nat
    const transaction: Transaction
    const submittedAt: string
    var status: Status
    var chainTxHash: Option<string>
    var receipt: Option<Receipt>
    var updatedAt: Option<string>

    constructor (id: Id, seqNum: nat, transaction: Transaction, submittedAt: string)
      ensures ToJson() == Record(id, seqNum, transaction, Pending, submittedAt, None, None, None)
    {
      this.mempoolTxId, this.seqNum, this.transaction, this.submittedAt := id, seqNum, transaction, submittedAt;
      status, chainTxHash, receipt, updatedAt := Pending, None, None, None;
    }

    function ToJson(): Record
      reads this
    {
      Record(mempoolTxId, seqNum, transaction, status, submittedAt, chainTxHash, receipt, updatedAt)
    }
  }

  lemma MapUpdated(m: map<Id, Record>, m': map<Id, Record>, id: Id, r: Record)
    requires m'.Keys == m.Keys + {id} && m'[id] == r
    requires forall k :: k in m && k != id ==> m'[k] == m[k]
    ensures m' == m[id := r]
  {
  }

  class Mempool {
    var transactions: map<Id, MempoolRecord>
    var order: seq<Id>
    var lastSeqNum: nat
    /** The record objects the dictionary refers to. */
    ghost var repr: set<MempoolRecord>

    ghost predicate Valid()
      reads this
    {
      && Orders(order, transactions.Keys)
      && (forall id :: id in transactions ==> transactions[id] in repr)
      && (forall j, k :: j in transactions && k in transactions && j != k ==> transactions[j] != transactions[k])
    }

    function Records(): map<Id, Record>
      requires Valid()
      reads this, repr
    {
      map id | id in transactions :: transactions[id].ToJson()
    }

    function Content(): Pool
      requires Valid()
      reads this, repr
    {
      Pool(lastSeqNum, order, Records())
    }

    constructor ()
      ensures Valid() && Content() == EmptyPool
    {
      transactions, order, lastSeqNum, repr := map[], [], 0, {};
    }

    method AddTransaction(transaction: Transaction, freshId: Id, now: string) returns (record: MempoolRecord)
      requires Valid()
      modifies this
      ensures Valid() && fresh(repr - old(repr))
      ensures fresh(record) && transactions == old(transactions)[freshId := record]
      ensures Content() == old(Content()).Add(freshId, transaction, now)
    {
      lastSeqNum := lastSeqNum + 1;
      record := new MempoolRecord(freshId, lastSeqNum, transaction, now);
      Store(freshId, record);
      assert record.ToJson() == old(Content()).NewRecord(freshId, transaction, now);
      StoredRecords(freshId, record);
      assert Content().records == old(Content()).Add(freshId, transaction, now).records;
    }

    /** The records as values after one has been stored. */
    twostate lemma StoredRecords(id: Id, new record: MempoolRecord)
      requires old(Valid()) && Valid() && transactions == old(transactions)[id := record]
      requires forall r :: r in old(repr) ==> r.ToJson() == old(r.ToJson())
      ensures Records() == old(Records())[id := record.ToJson()]
      ensures id in old(Records()) <==> id in old(transactions)
    {
      MapUpdated(old(Records()), Records(), id, record.ToJson());
    }

    /** The assignment to the dictionary, which keeps the place of a key it has. */
    method Store(id: Id, record: MempoolRecord)
      requires Valid() && record !in repr
      modifies this`order, this`transactions, this`repr
      ensures Valid() && repr == old(repr) + {record}
      ensures transactions == old(transactions)[id := record]
      ensures order == if id in old(transactions) then old(order) else old(order) + [id]
    {
      OrdersAppended(order, transactions.Keys, id);
      ghost var before := transactions;
      if id !in transactions {
        order := order + [id];
      }
      transactions := transactions[id := record];
      repr := repr + {record};
      assert transactions.Keys == before.Keys + {id};
    }

    method GetTransaction(id: Id) returns (record: MempoolRecord?)
      requires Valid()
      ensures record == null <==> id !in Content().records
      ensures record != null ==> record.ToJson() == Content().records[id]
    {
      if id in transactions {
        return transactions[id];
      }
      return null;
    }

    method MarkMined(id: Id, chainTxHash: string, status: Status, receipt: Option<Receipt>, now: string)
      returns (found: bool)
      requires Valid()
      modifies repr
      ensures Valid() && repr == old(repr)
      ensures var marked := old(Content()).MarkMined(id, Mark(chainTxHash, status, receipt, now));
              && found == marked.Some?
              && Content() == (if marked.Some? then marked.value else old(Content()))
    {
      if id !in transactions { return false; }
      var record := transactions[id];
      record.status := status;
      record.chainTxHash := Some(chainTxHash);
      record.receipt := receipt;
      record.updatedAt := Some(now);
      found := true;
    }

    method PendingSnapshot() returns (snapshot: Snapshot)
      requires Valid()
      ensures Content().Consistent() && snapshot == Content().PendingSnapshot()
    {
      var pending: seq<Record> := [];
      for i := 0 to |order|
        invariant pending == PendingIn(order[..i], Records())
      {
        assert order[..i + 1][..i] == order[..i];
        var record := transactions[order[i]];
        if record.status == Pending {
          pending := pending + [record.ToJson()];
        }
      }
      assert order[..|order|] == order;
      snapshot := Snapshot(lastSeqNum, pending);
    }
  }
}
