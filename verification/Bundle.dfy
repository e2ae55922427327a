/** bundle.py: reading a private bundle, executing it on the chain, and marking
    the mempool records it mined. The chain's answers are parameters. */
module Bundle {
  import opened Options
  import opened Mempool

  /** The "mempoolTxId" field of an item, as JSON. */
  datatype RawId = Absent | NotAString | Text(text: string)

  /** An item, with the transaction its other fields denote, if they do. */
  datatype RawItem = RawItem(mempoolTxId: RawId, transaction: Option<Transaction>)

  datatype RawBundle = NotAList | Items(items: seq<RawItem>)

  datatype BundleItem = BundleItem(mempoolTxId: Option<Id>, transaction: Transaction)

  datatype Rejection = IdNotAString | UnknownTransaction | NotPending | BadTransaction | NoTransactions | ChainFailed

  datatype Answer<+T> = Ok(value: T) | Rejected(reason: Rejection) {
    predicate IsFailure() {
      Rejected?
    }

    function PropagateFailure<U>(): Answer<U>
      requires Rejected?
    {
      Rejected(reason)
    }

    function Extract(): T
      requires Ok?
    {
      value
    }
  }

  /** BundleItem.fromJson. */
  function ParseItem(raw: RawItem, p: Pool): Answer<BundleItem> {
    match raw.mempoolTxId
    case Absent =>
      if raw.transaction.None? then Rejected(BadTransaction) else Ok(BundleItem(None, raw.transaction.value))
    case NotAString => Rejected(IdNotAString)
    case Text(text) =>
      var id := Id(text);
      if text == "" then Rejected(IdNotAString)
      else if id !in p.records then Rejected(UnknownTransaction)
      else if p.records[id].status != Pending then Rejected(NotPending)
      else Ok(BundleItem(Some(id), p.records[id].transaction))
  }

  function ParseItems(raws: seq<RawItem>, p: Pool): Answer<seq<BundleItem>> {
    if raws == [] then Ok([])
    else
      var first :- ParseItem(raws[0], p);
      var rest :- ParseItems(raws[1..], p);
      Ok([first] + rest)
  }

  /** Bundle.fromJson. */
  function ParseBundle(raw: RawBundle, p: Pool): Answer<seq<BundleItem>> {
    if raw.NotAList? || raw.items == [] then Rejected(NoTransactions) else ParseItems(raw.items, p)
  }

  function StatusFromReceipt(receipt: Option<Receipt>): Status {
    if receipt.None? then Missing
    else if receipt.value.status == Some("0x1") then Included
    else Reverted
  }

  datatype TxResult = TxResult(mempoolTxId: Option<Id>, chainTxHash: string, status: Status, receipt: Option<Receipt>)

  datatype BundleResult = BundleResult(included: bool, transactions: seq<TxResult>)

  /** The chain either fails some request, or answers with a hash and perhaps a
      receipt for every transaction. */
  datatype ChainReply = Unavailable | Mined(hashes: seq<string>, receipts: seq<Option<Receipt>>)

  predicate Aligned(items: seq<BundleItem>, reply: ChainReply) {
    reply.Mined? ==> |reply.hashes| == |reply.receipts| == |items|
  }

  function TxResultOf(item: BundleItem, hash: string, receipt: Option<Receipt>): TxResult {
    TxResult(item.mempoolTxId, hash, StatusFromReceipt(receipt), receipt)
  }

  /** `_executeBundle`. */
  function ExecuteBundle(items: seq<BundleItem>, reply: ChainReply): Answer<BundleResult>
    requires Aligned(items, reply)
  {
    if reply.Unavailable? then Rejected(ChainFailed)
    else Ok(BundleResult(forall i :: 0 <= i < |items| ==> StatusFromReceipt(reply.receipts[i]) == Included,
                         seq(|items|, i requires 0 <= i < |items| =>
                           TxResultOf(items[i], reply.hashes[i], reply.receipts[i]))))
  }

  predicate Known(p: Pool, item: BundleItem) {
    item.mempoolTxId.Some? ==> item.mempoolTxId.value in p.records
  }

  /** How many items come before the first whose record the mempool does not
      know, where marking raises. */
  function KnownPrefix(p: Pool, items: seq<BundleItem>): (n: nat)
    ensures n <= |items|
    ensures forall i :: 0 <= i < n ==> Known(p, items[i])
    ensures n < |items| ==> !Known(p, items[n])
  {
    if items == [] || !Known(p, items[0]) then 0 else 1 + KnownPrefix(p, items[1..])
  }

  /** The mempool after marking the first `n` items with their results. */
  function MarkUpTo(p: Pool, items: seq<BundleItem>, results: seq<TxResult>, stamps: seq<string>, n: nat): (p': Pool)
    requires n <= |items| == |results| == |stamps|
    requires forall i :: 0 <= i < n ==> Known(p, items[i])
    ensures p'.records.Keys == p.records.Keys
  {
    if n == 0 then p
    else
      assert Known(p, items[n - 1]);
      MarkOne(MarkUpTo(p, items, results, stamps, n - 1), items[n - 1], results[n - 1], stamps[n - 1])
  }

  /** One item's result written into the record it refers to, if any. */
  function MarkOne(p: Pool, item: BundleItem, result: TxResult, stamp: string): (p': Pool)
    requires Known(p, item)
    ensures p'.records.Keys == p.records.Keys
  {
    match item.mempoolTxId
    case None => p
    case Some(id) => p.MarkMined(id, MarkOf(result, stamp)).value
  }

  function MarkOf(r: TxResult, stamp: string): Mark {
    Mark(r.chainTxHash, r.status, r.receipt, stamp)
  }

  /** submit_private_bundle: parse, execute, mark; nothing is marked unless the
      bundle parses and the chain answers. */
  function SubmitBundle(p: Pool, raw: RawBundle, reply: ChainReply, stamps: seq<string>): Answer<(Pool, BundleResult)>
    requires ParseBundle(raw, p).Ok? ==>
               Aligned(ParseBundle(raw, p).value, reply) && |stamps| == |ParseBundle(raw, p).value|
  {
    var items :- ParseBundle(raw, p);
    var result :- ExecuteBundle(items, reply);
    ParsedArePending(raw, p);
    Ok((MarkUpTo(p, items, result.transactions, stamps, |items|), result))
  }

  // ---- What parsing and marking promise ----

  /** A parsed bundle has one item per raw item, and every record it refers to
      is there and pending. */
  lemma {:induction false} ParsedItems(raws: seq<RawItem>, p: Pool)
    requires ParseItems(raws, p).Ok?
    ensures var items := ParseItems(raws, p).value;
            && |items| == |raws|
            && forall i :: 0 <= i < |items| ==> Ok(items[i]) == ParseItem(raws[i], p)
  {
    if raws != [] {
      ParsedItems(raws[1..], p);
      var items := ParseItems(raws, p).value;
      forall i | 0 <= i < |items| ensures Ok(items[i]) == ParseItem(raws[i], p) {
        if i > 0 {
          assert items[i] == ParseItems(raws[1..], p).value[i - 1];
        }
      }
    }
  }

  /** An item is accepted when it names a pending record, or names none and brings a
      transaction of its own. */
  ghost predicate Acceptable(raw: RawItem, p: Pool) {
    match raw.mempoolTxId
    case Absent => raw.transaction.Some?
    case NotAString => false
    case Text(text) => text != "" && Id(text) in p.records && p.records[Id(text)].status == Pending
  }

  /** What an accepted item stands for: the record's own transaction, or the one it
      brings. */
  ghost predicate StandsFor(raw: RawItem, p: Pool, item: BundleItem)
    requires Acceptable(raw, p)
  {
    match raw.mempoolTxId
    case Absent => item.mempoolTxId.None? && item.transaction == raw.transaction.value
    case Text(text) => item.mempoolTxId == Some(Id(text)) && item.transaction == p.records[Id(text)].transaction
  }

  lemma ItemParsesExactlyWhen(raw: RawItem, p: Pool)
    ensures var r := ParseItem(raw, p);
            && (r.Ok? <==> Acceptable(raw, p))
            && (r.Ok? ==> StandsFor(raw, p, r.value))
            && (r == Rejected(BadTransaction) <==> raw.mempoolTxId.Absent? && raw.transaction.None?)
            && (r == Rejected(IdNotAString) <==> raw.mempoolTxId.NotAString? || raw.mempoolTxId == Text(""))
            && (raw.mempoolTxId.Text? && raw.mempoolTxId.text != "" ==>
                  && (r == Rejected(UnknownTransaction) <==> Id(raw.mempoolTxId.text) !in p.records)
                  && (r == Rejected(NotPending) <==>
                        Id(raw.mempoolTxId.text) in p.records && p.records[Id(raw.mempoolTxId.text)].status != Pending))
  {
  }

  lemma {:induction false} ItemsParseExactlyWhen(raws: seq<RawItem>, p: Pool)
    ensures ParseItems(raws, p).Ok? <==> forall i :: 0 <= i < |raws| ==> Acceptable(raws[i], p)
  {
    if raws != [] {
      ItemParsesExactlyWhen(raws[0], p);
      ItemsParseExactlyWhen(raws[1..], p);
      if forall i :: 0 <= i < |raws[1..]| ==> Acceptable(raws[1..][i], p) {
        assert forall i :: 0 < i < |raws| ==> raws[i] == raws[1..][i - 1];
      }
    }
  }

  /** A bundle parses exactly when it is a non-empty list of acceptable items, and
      then it has one item for each, in order, standing for what it names or brings. */
  lemma ParsesExactlyWhen(raw: RawBundle, p: Pool)
    ensures ParseBundle(raw, p).Ok? <==>
            raw.Items? && raw.items != [] && forall i :: 0 <= i < |raw.items| ==> Acceptable(raw.items[i], p)
    ensures ParseBundle(raw, p).Ok? ==>
              var items := ParseBundle(raw, p).value;
              && |items| == |raw.items|
              && forall i :: 0 <= i < |items| ==> Acceptable(raw.items[i], p) && StandsFor(raw.items[i], p, items[i])
  {
    if raw.Items? {
      ItemsParseExactlyWhen(raw.items, p);
      if ParseItems(raw.items, p).Ok? {
        ParsedItems(raw.items, p);
        forall i | 0 <= i < |raw.items|
          ensures Acceptable(raw.items[i], p) && StandsFor(raw.items[i], p, ParseItems(raw.items, p).value[i])
        {
          ItemParsesExactlyWhen(raw.items[i], p);
        }
      }
    }
  }

  ghost predicate AllPending(p: Pool, items: seq<BundleItem>) {
    forall i :: 0 <= i < |items| && items[i].mempoolTxId.Some? ==>
      items[i].mempoolTxId.value in p.records && p.records[items[i].mempoolTxId.value].status == Pending
  }

  lemma ParsedArePending(raw: RawBundle, p: Pool)
    requires ParseBundle(raw, p).Ok?
    ensures AllPending(p, ParseBundle(raw, p).value)
  {
    ParsedItems(raw.items, p);
  }

  /** The last of the first `n` items that refers to this record, if any. */
  function LastFor(items: seq<BundleItem>, id: Id, n: nat): (last: Option<nat>)
    requires n <= |items|
    ensures last.Some? ==> last.value < n
  {
    if n == 0 then None
    else if items[n - 1].mempoolTxId == Some(id) then Some(n - 1)
    else LastFor(items, id, n - 1)
  }

  lemma {:induction false} LastForIsLast(items: seq<BundleItem>, id: Id, n: nat)
    requires n <= |items|
    ensures match LastFor(items, id, n)
            case None => forall j :: 0 <= j < n ==> items[j].mempoolTxId != Some(id)
            case Some(i) =>
              && i < n && items[i].mempoolTxId == Some(id)
              && forall j :: i < j < n ==> items[j].mempoolTxId != Some(id)
  {
    if n > 0 && items[n - 1].mempoolTxId != Some(id) {
      LastForIsLast(items, id, n - 1);
    }
  }

  lemma {:induction false} MarkingKeepsNumbered(
    p: Pool, items: seq<BundleItem>, results: seq<TxResult>, stamps: seq<string>, n: nat)
    requires n <= |items| == |results| == |stamps| && p.Numbered()
    requires forall i :: 0 <= i < n ==> Known(p, items[i])
    ensures var p' := MarkUpTo(p, items, results, stamps, n);
            p'.Numbered() && p'.order == p.order && p'.lastSeqNum == p.lastSeqNum && p'.records.Keys == p.records.Keys
  {
    if n > 0 {
      MarkingKeepsNumbered(p, items, results, stamps, n - 1);
      var before := MarkUpTo(p, items, results, stamps, n - 1);
      var id := items[n - 1].mempoolTxId;
      if id.Some? && id.value in before.records {
        MarkKeepsNumbered(before, id.value, MarkOf(results[n - 1], stamps[n - 1]));
      }
    }
  }

  /** Marking gives every referenced record the result of its own item, the last
      one if it is repeated, and leaves every other record alone. */
  lemma {:induction false} MarkingIsAligned(
    p: Pool, items: seq<BundleItem>, results: seq<TxResult>, stamps: seq<string>, n: nat, id: Id)
    requires n <= |items| == |results| == |stamps| && p.Numbered() && id in p.records
    requires forall i :: 0 <= i < n ==> Known(p, items[i])
    ensures var p' := MarkUpTo(p, items, results, stamps, n);
            id in p'.records &&
            p'.records[id] == match LastFor(items, id, n)
                              case None => p.records[id]
                              case Some(i) => Marked(p.records[id], MarkOf(results[i], stamps[i]))
  {
    if n > 0 {
      MarkingIsAligned(p, items, results, stamps, n - 1, id);
    }
  }

  /** What a status says about the receipt behind it. */
  ghost predicate StatusSays(status: Status, receipt: Option<Receipt>) {
    && (status == Included <==> receipt.Some? && receipt.value.status == Some("0x1"))
    && (status == Missing <==> receipt.None?)
    && status != Pending
  }

  /** Each result is that of its own item: the hash and the receipt the chain gave
      for it, and the status the receipt shows. */
  lemma ResultsAreFinal(items: seq<BundleItem>, reply: ChainReply)
    requires Aligned(items, reply) && ExecuteBundle(items, reply).Ok?
    ensures var r := ExecuteBundle(items, reply).value;
            && |r.transactions| == |items|
            && (forall i :: 0 <= i < |items| ==>
                  var t := r.transactions[i];
                  && t.mempoolTxId == items[i].mempoolTxId
                  && t.chainTxHash == reply.hashes[i] && t.receipt == reply.receipts[i]
                  && StatusSays(t.status, reply.receipts[i]))
            && (r.included <==>
                  forall i :: 0 <= i < |items| ==>
                    reply.receipts[i].Some? && reply.receipts[i].value.status == Some("0x1"))
  {
    var r := ExecuteBundle(items, reply).value;
    forall i | 0 <= i < |items| ensures r.transactions[i].status == StatusFromReceipt(reply.receipts[i]) {
    }
  }

  lemma {:induction false} ParsingBlamesTheBundle(raws: seq<RawItem>, p: Pool)
    ensures ParseItems(raws, p) != Rejected(ChainFailed)
  {
    if raws != [] {
      ParsingBlamesTheBundle(raws[1..], p);
    }
  }

  /** A call blames the chain exactly when the bundle parses and the chain does not
      answer; otherwise it blames what is wrong with the bundle. */
  lemma SubmitFailsWith(p: Pool, raw: RawBundle, reply: ChainReply, stamps: seq<string>)
    requires ParseBundle(raw, p).Ok? ==>
               Aligned(ParseBundle(raw, p).value, reply) && |stamps| == |ParseBundle(raw, p).value|
    ensures SubmitBundle(p, raw, reply, stamps) == Rejected(ChainFailed) <==>
            ParseBundle(raw, p).Ok? && reply.Unavailable?
    ensures ParseBundle(raw, p).Rejected? ==>
              SubmitBundle(p, raw, reply, stamps) == Rejected(ParseBundle(raw, p).reason)
  {
    if raw.Items? {
      ParsingBlamesTheBundle(raw.items, p);
    }
  }

  // ---- The loop ----

  /** One turn of the loop. An unknown record is left to the caller to raise. */
  method MarkItem(item: BundleItem, result: TxResult, stamp: string, mempool: Mempool) returns (found: bool)
    requires mempool.Valid()
    modifies mempool.repr
    ensures mempool.Valid() && mempool.repr == old(mempool.repr)
    ensures found == Known(old(mempool.Content()), item)
    ensures mempool.Content() ==
              if found then MarkOne(old(mempool.Content()), item, result, stamp) else old(mempool.Content())
  {
    if item.mempoolTxId.None? { return true; }
    found := mempool.MarkMined(item.mempoolTxId.value, result.chainTxHash, result.status, result.receipt, stamp);
  }

  /** mineBundle: the results of the execution are written into the records one
      by one, up to the first record the mempool does not know. */
  method MineBundle(items: seq<BundleItem>, reply: ChainReply, stamps: seq<string>, mempool: Mempool)
    returns (answer: Answer<BundleResult>)
    requires mempool.Valid() && Aligned(items, reply) && |stamps| == |items|
    modifies mempool.repr
    ensures mempool.Valid()
    ensures var p, executed := old(mempool.Content()), ExecuteBundle(items, reply);
            var n := KnownPrefix(p, items);
            if executed.Rejected? then answer == executed && mempool.Content() == p
            else
              && answer == (if n == |items| then executed else Rejected(UnknownTransaction))
              && mempool.Content() == MarkUpTo(p, items, executed.value.transactions, stamps, n)
  {
    answer := ExecuteBundle(items, reply);
    if answer.Rejected? { return; }
    var results := answer.value.transactions;
    ghost var p := mempool.Content();
    for i := 0 to |items|
      invariant mempool.Valid() && mempool.repr == old(mempool.repr)
      invariant i <= KnownPrefix(p, items)
      invariant mempool.Content() == MarkUpTo(p, items, results, stamps, i)
    {
      ghost var before := mempool.Content();
      var found := MarkItem(items[i], results[i], stamps[i], mempool);
      assert found <==> Known(p, items[i]);
      if !found { return Rejected(UnknownTransaction); }
      assert mempool.Content() == MarkOne(before, items[i], results[i], stamps[i]);
    }
  }
}
