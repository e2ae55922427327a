/** The builder service as interleaved asyncio steps (app.py over mempool.py,
    ws.py and bundle.py). What runs between two awaits is one step; every send of
    a broadcast is a step of its own. */
module Builder {
  import opened Options
  import opened Mempool
  import opened Bundle
  import opened Broadcast

  /** A broadcast under way: the record as it was announced, the subscribers
      captured for it, those still to be sent to, and those whose send failed. */
  datatype Cast = Cast(record: Record, targets: set<Ws>, todo: set<Ws>, broken: seq<Ws>, finished: bool)

  /** Broadcasts are kept by the sequence number they announce. `sent` counts the
      sends made, by subscriber and sequence number. */
  datatype State = State(pool: Pool, subscribers: set<Ws>, casts: map<nat, Cast>, sent: multiset<(Ws, nat)>)

  datatype Action =
    | Submit(id: Id, transaction: Transaction, now: string)
    | Send(seqNum: nat, ws: Ws, ok: bool)
    | Finish(seqNum: nat)
    | Connect(ws: Ws)
    | Disconnect(ws: Ws)
    | Mine(bundle: RawBundle, reply: ChainReply, stamps: seq<string>)

  /** Ids are fresh; a broadcast sends to each captured socket and finishes when
      none is left; the chain's reply fits the bundle. */
  predicate Enabled(s: State, a: Action) {
    match a
    case Submit(id, _, _) => id !in s.pool.records
    case Send(n, ws, _) => n in s.casts && ws in s.casts[n].todo
    case Finish(n) => n in s.casts && s.casts[n].todo == {} && !s.casts[n].finished
    case Connect(_) => true
    case Disconnect(_) => true
    case Mine(raw, reply, stamps) =>
      ParseBundle(raw, s.pool).Ok? ==>
        Aligned(ParseBundle(raw, s.pool).value, reply) && |stamps| == |ParseBundle(raw, s.pool).value|
  }

  function Apply(s: State, a: Action): State
    requires Enabled(s, a)
  {
    match a
    case Submit(id, tx, now) =>
      var n := s.pool.lastSeqNum + 1;
      s.(pool := s.pool.Add(id, tx, now),
         casts := s.casts[n := Cast(s.pool.NewRecord(id, tx, now), s.subscribers, s.subscribers, [], false)])
    case Send(n, ws, ok) =>
      var c := s.casts[n];
      s.(casts := s.casts[n := c.(todo := c.todo - {ws}, broken := if ok then c.broken else c.broken + [ws])],
         sent := s.sent + multiset{(ws, n)})
    case Finish(n) =>
      s.(subscribers := s.subscribers - Members(s.casts[n].broken),
         casts := s.casts[n := s.casts[n].(finished := true)])
    case Connect(ws) => s.(subscribers := s.subscribers + {ws})
    case Disconnect(ws) => s.(subscribers := s.subscribers - {ws})
    case Mine(raw, reply, stamps) =>
      var done := SubmitBundle(s.pool, raw, reply, stamps);
      if done.Ok? then s.(pool := done.value.0) else s
  }

  predicate Runs(s: State, as': seq<Action>)
    decreases |as'|
  {
    as' == [] || (Enabled(s, as'[0]) && Runs(Apply(s, as'[0]), as'[1..]))
  }

  function After(s: State, as': seq<Action>): State
    requires Runs(s, as')
    decreases |as'|
  {
    if as' == [] then s else After(Apply(s, as'[0]), as'[1..])
  }

  const Started := State(EmptyPool, {}, map[], multiset{})

  // ---- Invariants ----

  /** How often this sequence number has been, or is still to be, sent to a
      subscriber. */
  function Addressed(s: State, ws: Ws, n: nat): nat {
    s.sent[(ws, n)] + (if n in s.casts && ws in s.casts[n].todo then 1 else 0)
  }

  ghost predicate AddressedOnce(s: State) {
    forall ws, n :: Addressed(s, ws, n) == if n in s.casts && ws in s.casts[n].targets then 1 else 0
  }

  /** There is one broadcast for every record, announcing it as pending. */
  ghost predicate Announced(s: State) {
    && (forall n :: n in s.casts ==> 1 <= n <= s.pool.lastSeqNum)
    && forall id :: id in s.pool.records ==>
         var n := s.pool.records[id].seqNum;
         && n in s.casts
         && Settles(s.casts[n].record, s.pool.records[id])
         && s.casts[n].record.status == Pending
  }

  ghost predicate Inv(s: State) {
    s.pool.Numbered() && Announced(s) && AddressedOnce(s)
  }

  /** What may become of a record: its identity stays, and once it is no longer
      pending it never changes. */
  predicate Settles(r: Record, r': Record) {
    && r'.id == r.id && r'.seqNum == r.seqNum && r'.transaction == r.transaction && r'.submittedAt == r.submittedAt
    && (r.status != Pending || r'.status == Pending ==> r' == r)
  }

  ghost predicate AllSettle(p: Pool, p': Pool) {
    forall id :: id in p.records ==> id in p'.records && Settles(p.records[id], p'.records[id])
  }

  // ---- Every step ----

  /** A bundle either marks every record it refers to, each pending until then
      and each with its own final result, or changes nothing at all. */
  lemma MineMarksAllOrNothing(p: Pool, raw: RawBundle, reply: ChainReply, stamps: seq<string>)
    requires p.Numbered()
    requires ParseBundle(raw, p).Ok? ==>
               Aligned(ParseBundle(raw, p).value, reply) && |stamps| == |ParseBundle(raw, p).value|
    ensures SubmitBundle(p, raw, reply, stamps).Ok? <==> ParseBundle(raw, p).Ok? && reply.Mined?
    ensures SubmitBundle(p, raw, reply, stamps).Ok? ==>
              var items := ParseBundle(raw, p).value;
              var (p', r) := SubmitBundle(p, raw, reply, stamps).value;
              && p'.Numbered() && p'.order == p.order && p'.lastSeqNum == p.lastSeqNum
              && p'.records.Keys == p.records.Keys
              && |r.transactions| == |items|
              && (forall i :: 0 <= i < |items| && items[i].mempoolTxId.Some? ==>
                    items[i].mempoolTxId.value in p.records && p.records[items[i].mempoolTxId.value].status == Pending)
              && forall id :: id in p.records ==> MinedAs(p, items, p', reply, stamps, id)
  {
    if SubmitBundle(p, raw, reply, stamps).Ok? {
      var items := ParseBundle(raw, p).value;
      ParsedArePending(raw, p);
      ResultsAreFinal(items, reply);
      MarkingKeepsNumbered(p, items, ExecuteBundle(items, reply).value.transactions, stamps, |items|);
      forall id | id in p.records
        ensures MinedAs(p, items, SubmitBundle(p, raw, reply, stamps).value.0, reply, stamps, id)
      {
        MinedRecord(p, items, reply, stamps, id);
      }
    }
  }

  /** The record after a bundle: as it was, or with the hash, the receipt and the
      status that the chain's reply has for the last item that refers to it. */
  ghost predicate MinedAs(
    p: Pool, items: seq<BundleItem>, p': Pool, reply: ChainReply, stamps: seq<string>, id: Id)
    requires Aligned(items, reply) && reply.Mined? && |items| == |stamps| && id in p.records
  {
    && id in p'.records && Settles(p.records[id], p'.records[id])
    && match LastFor(items, id, |items|)
       case None => p'.records[id] == p.records[id]
       case Some(i) =>
         var r := p'.records[id];
         && r.chainTxHash == Some(reply.hashes[i]) && r.receipt == reply.receipts[i] && r.updatedAt == Some(stamps[i])
         && StatusSays(r.status, reply.receipts[i])
  }

  lemma MinedRecord(p: Pool, items: seq<BundleItem>, reply: ChainReply, stamps: seq<string>, id: Id)
    requires p.Numbered() && AllPending(p, items) && id in p.records
    requires Aligned(items, reply) && reply.Mined? && |stamps| == |items|
    ensures var results := ExecuteBundle(items, reply).value.transactions;
            MinedAs(p, items, MarkUpTo(p, items, results, stamps, |items|), reply, stamps, id)
  {
    var results := ExecuteBundle(items, reply).value.transactions;
    ResultsAreFinal(items, reply);
    MarkingIsAligned(p, items, results, stamps, |items|, id);
    LastForIsLast(items, id, |items|);
    if LastFor(items, id, |items|).Some? {
      var i := LastFor(items, id, |items|).value;
      assert items[i].mempoolTxId == Some(id);
      assert StatusSays(results[i].status, reply.receipts[i]);
      MarkedSettles(p.records[id], MarkOf(results[i], stamps[i]));
    }
  }

  lemma MarkedSettles(r: Record, m: Mark)
    requires r.status == Pending && m.status != Pending
    ensures Settles(r, Marked(r, m))
  {
  }

  lemma StepSettles(s: State, a: Action)
    requires s.pool.Numbered() && Enabled(s, a)
    ensures Apply(s, a).pool.Numbered() && AllSettle(s.pool, Apply(s, a).pool)
    ensures !a.Mine? ==> forall id :: id in s.pool.records ==> Apply(s, a).pool.records[id] == s.pool.records[id]
    ensures !a.Submit? ==>
              Apply(s, a).pool.records.Keys == s.pool.records.Keys && Apply(s, a).pool.lastSeqNum == s.pool.lastSeqNum
  {
    match a {
      case Submit(id, tx, now) => AddKeepsNumbered(s.pool, id, tx, now);
      case Mine(raw, reply, stamps) =>
        MineMarksAllOrNothing(s.pool, raw, reply, stamps);
        if SubmitBundle(s.pool, raw, reply, stamps).Ok? {
          forall id | id in s.pool.records ensures Settles(s.pool.records[id], Apply(s, a).pool.records[id]) {
            assert MinedAs(s.pool, ParseBundle(raw, s.pool).value, Apply(s, a).pool, reply, stamps, id);
          }
        }
      case _ =>
    }
  }

  lemma SubmitKeepsAddressed(s: State, a: Action)
    requires Inv(s) && a.Submit? && Enabled(s, a)
    ensures AddressedOnce(Apply(s, a))
  {
    var s', n := Apply(s, a), s.pool.lastSeqNum + 1;
    forall ws, k ensures Addressed(s', ws, k) == if k in s'.casts && ws in s'.casts[k].targets then 1 else 0 {
      assert Addressed(s, ws, k) == if k in s.casts && ws in s.casts[k].targets then 1 else 0;
    }
  }

  lemma StepKeepsAddressed(s: State, a: Action)
    requires Inv(s) && Enabled(s, a)
    ensures AddressedOnce(Apply(s, a))
  {
    if a.Submit? {
      SubmitKeepsAddressed(s, a);
    } else {
      var s' := Apply(s, a);
      forall ws, k ensures Addressed(s', ws, k) == if k in s'.casts && ws in s'.casts[k].targets then 1 else 0 {
        assert Addressed(s, ws, k) == if k in s.casts && ws in s.casts[k].targets then 1 else 0;
      }
    }
  }

  lemma StepKeepsAnnounced(s: State, a: Action)
    requires Inv(s) && Enabled(s, a)
    ensures Announced(Apply(s, a))
  {
    StepSettles(s, a);
    var s' := Apply(s, a);
    forall id | id in s'.pool.records
      ensures var n := s'.pool.records[id].seqNum;
              && n in s'.casts && Settles(s'.casts[n].record, s'.pool.records[id])
              && s'.casts[n].record.status == Pending
    {
      if id in s.pool.records {
        assert Settles(s.pool.records[id], s'.pool.records[id]);
        SeqNumsInRange(s.pool, id);
      }
    }
  }

  lemma SeqNumsInRange(p: Pool, id: Id)
    requires p.Numbered() && id in p.records
    ensures 1 <= p.records[id].seqNum <= p.lastSeqNum && p.records[id].id == id
  {
    assert id in p.order;
    var i :| 0 <= i < |p.order| && p.order[i] == id;
  }

  lemma StepKeepsInv(s: State, a: Action)
    requires Inv(s) && Enabled(s, a)
    ensures Inv(Apply(s, a))
  {
    StepSettles(s, a);
    StepKeepsAnnounced(s, a);
    StepKeepsAddressed(s, a);
  }

  // ---- Every run ----

  /** Sequence numbers are 1 to lastSeqNum in insertion order, every record is
      announced to the subscribers captured for it exactly once, and no record
      changes again after it has left `pending`. */
  lemma {:induction false} RunKeepsInv(s: State, as': seq<Action>)
    requires Inv(s) && Runs(s, as')
    ensures Inv(After(s, as')) && AllSettle(s.pool, After(s, as').pool)
    ensures s.pool.lastSeqNum <= After(s, as').pool.lastSeqNum
    decreases |as'|
  {
    if as' != [] {
      StepKeepsInv(s, as'[0]);
      StepSettles(s, as'[0]);
      RunKeepsInv(Apply(s, as'[0]), as'[1..]);
      SettlesTransitive(s.pool, Apply(s, as'[0]).pool, After(s, as').pool);
    }
  }

  lemma SettlesTransitive(p: Pool, q: Pool, r: Pool)
    requires AllSettle(p, q) && AllSettle(q, r)
    ensures AllSettle(p, r)
  {
  }

  lemma StartedInv()
    ensures Inv(Started)
  {
  }

  // ---- Snapshot plus stream ----

  /** The client is subscribed now and after every step. */
  predicate StaysSubscribed(s: State, as': seq<Action>, ws: Ws)
    requires Runs(s, as')
    decreases |as'|
  {
    ws in s.subscribers && (as' == [] || StaysSubscribed(Apply(s, as'[0]), as'[1..], ws))
  }

  /** Every broadcast begun after `boundary` was captured with this client. */
  ghost predicate CapturedSince(s: State, ws: Ws, boundary: nat) {
    forall n :: n in s.casts && n > boundary ==> ws in s.casts[n].targets
  }

  lemma {:induction false} StaysCaptured(s: State, as': seq<Action>, ws: Ws, boundary: nat)
    requires Inv(s) && Runs(s, as') && StaysSubscribed(s, as', ws)
    requires CapturedSince(s, ws, boundary)
    ensures CapturedSince(After(s, as'), ws, boundary)
    decreases |as'|
  {
    if as' != [] {
      StepKeepsInv(s, as'[0]);
      StaysCaptured(Apply(s, as'[0]), as'[1..], ws, boundary);
    }
  }

  /** A client that is subscribed when it takes its snapshot and stays subscribed
      misses nothing, however everything else interleaves. The snapshot's records
      are those numbered up to its boundary. Every record numbered above it is
      addressed to the client exactly once, announced as it was submitted. And a
      record that is pending at any later time is in the snapshot, unchanged,
      exactly when it is not above the boundary. */
  lemma SnapshotPlusStreamHasNoGap(s: State, as': seq<Action>, ws: Ws)
    requires Inv(s) && Runs(s, as') && StaysSubscribed(s, as', ws)
    ensures var snapshot, later := s.pool.PendingSnapshot(), After(s, as');
            && (forall r :: r in snapshot.transactions ==> r.seqNum <= snapshot.snapshotSeq)
            && (forall id :: id in later.pool.records && id !in s.pool.records ==>
                  later.pool.records[id].seqNum > snapshot.snapshotSeq)
            && (forall id :: id in later.pool.records && later.pool.records[id].seqNum > snapshot.snapshotSeq ==>
                  var n := later.pool.records[id].seqNum;
                  && Addressed(later, ws, n) == 1
                  && n in later.casts && later.casts[n].record.id == id && later.casts[n].record.status == Pending)
            && (forall id :: id in later.pool.records && later.pool.records[id].status == Pending ==>
                  (later.pool.records[id] in snapshot.transactions <==>
                    later.pool.records[id].seqNum <= snapshot.snapshotSeq))
  {
    var snapshot, later := s.pool.PendingSnapshot(), After(s, as');
    RunKeepsInv(s, as');
    assert CapturedSince(s, ws, snapshot.snapshotSeq);
    StaysCaptured(s, as', ws, snapshot.snapshotSeq);
    forall r | r in snapshot.transactions ensures r.seqNum <= snapshot.snapshotSeq {
      SnapshotIsPending(s.pool, r);
    }
    forall id | id in later.pool.records
      ensures later.pool.records[id].seqNum > snapshot.snapshotSeq <==> id !in s.pool.records
      ensures later.pool.records[id].id == id
    {
      SeqNumsInRange(later.pool, id);
      OldOrNew(s, as', id);
    }
    forall id | id in later.pool.records && later.pool.records[id].seqNum > snapshot.snapshotSeq
      ensures Addressed(later, ws, later.pool.records[id].seqNum) == 1
    {
    }
    forall id | id in later.pool.records && later.pool.records[id].status == Pending
      ensures later.pool.records[id] in snapshot.transactions <==> later.pool.records[id].seqNum <= snapshot.snapshotSeq
    {
      SnapshotIsPending(s.pool, later.pool.records[id]);
      if id in s.pool.records {
        assert Settles(s.pool.records[id], later.pool.records[id]);
      }
    }
  }

  /** The boundary separates the records of the snapshot's time from later ones. */
  lemma {:induction false} OldOrNew(s: State, as': seq<Action>, id: Id)
    requires Inv(s) && Runs(s, as') && id in After(s, as').pool.records
    ensures After(s, as').pool.records[id].seqNum > s.pool.lastSeqNum <==> id !in s.pool.records
    decreases |as'|
  {
    if id in s.pool.records {
      RunKeepsInv(s, as');
      SeqNumsInRange(s.pool, id);
      assert Settles(s.pool.records[id], After(s, as').pool.records[id]);
    } else {
      StepKeepsInv(s, as'[0]);
      StepSettles(s, as'[0]);
      var s' := Apply(s, as'[0]);
      OldOrNew(s', as'[1..], id);
      if id in s'.pool.records {
        RunKeepsInv(s', as'[1..]);
        assert Settles(s'.pool.records[id], After(s, as').pool.records[id]);
      }
    }
  }

  // ---- Who is subscribed ----

  /** The socket is subscribed after these actions: it has connected, and since then
      it has not disconnected and no broadcast has ended in which a send to it failed. */
  predicate Listening(as': seq<Action>, ws: Ws) {
    if as' == [] then false
    else
      var before, last := as'[..|as'| - 1], as'[|as'| - 1];
      if last == Connect(ws) then true
      else if last == Disconnect(ws) || (last.Finish? && Send(last.seqNum, ws, false) in before) then false
      else Listening(before, ws)
  }

  lemma {:induction false} RunsConcat(s: State, as': seq<Action>, bs: seq<Action>)
    ensures Runs(s, as' + bs) <==> Runs(s, as') && Runs(After(s, as'), bs)
    ensures Runs(s, as' + bs) ==> After(s, as' + bs) == After(After(s, as'), bs)
    decreases |as'|
  {
    if as' == [] {
      assert as' + bs == bs;
    } else {
      assert (as' + bs)[1..] == as'[1..] + bs;
      if Enabled(s, as'[0]) {
        RunsConcat(Apply(s, as'[0]), as'[1..], bs);
      }
    }
  }

  lemma LastStep(s: State, as': seq<Action>)
    requires Runs(s, as') && as' != []
    ensures var before, last := as'[..|as'| - 1], as'[|as'| - 1];
            && Runs(s, before) && Enabled(After(s, before), last)
            && After(s, as') == Apply(After(s, before), last)
  {
    var before, last := as'[..|as'| - 1], as'[|as'| - 1];
    assert as' == before + [last] && [last][1..] == [];
    RunsConcat(s, before, [last]);
  }

  /** A broadcast remembers exactly the sockets to which a send of it has failed. */
  lemma {:induction false} BrokenExactlyWhen(as': seq<Action>, n: nat, ws: Ws)
    requires Runs(Started, as')
    ensures Send(n, ws, false) in as' <==>
            n in After(Started, as').casts && ws in After(Started, as').casts[n].broken
  {
    if as' != [] {
      var before, last := as'[..|as'| - 1], as'[|as'| - 1];
      assert as' == before + [last];
      LastStep(Started, as');
      BrokenExactlyWhen(before, n, ws);
      StartedInv();
      RunKeepsInv(Started, before);
      BrokenStep(After(Started, before), last, n, ws);
    }
  }

  lemma BrokenStep(s: State, a: Action, n: nat, ws: Ws)
    requires Inv(s) && Enabled(s, a)
    ensures n in Apply(s, a).casts && ws in Apply(s, a).casts[n].broken <==>
            a == Send(n, ws, false) || (n in s.casts && ws in s.casts[n].broken)
  {
  }

  /** In every run the subscribers are exactly the sockets that the actions leave
      listening. */
  lemma {:induction false} SubscribedExactlyWhen(as': seq<Action>, ws: Ws)
    requires Runs(Started, as')
    ensures ws in After(Started, as').subscribers <==> Listening(as', ws)
  {
    if as' != [] {
      var before, last := as'[..|as'| - 1], as'[|as'| - 1];
      LastStep(Started, as');
      SubscribedExactlyWhen(before, ws);
      if last.Finish? {
        BrokenExactlyWhen(before, last.seqNum, ws);
      }
    }
  }

  /** A subscribed client stays subscribed as long as it does not disconnect and no
      send to it fails, nor has failed in a broadcast still under way. */
  lemma {:induction false} StaysSubscribedWhen(s: State, as': seq<Action>, ws: Ws)
    requires Runs(s, as') && ws in s.subscribers
    requires forall n :: n in s.casts && !s.casts[n].finished ==> ws !in s.casts[n].broken
    requires Disconnect(ws) !in as' && forall n :: Send(n, ws, false) !in as'
    ensures StaysSubscribed(s, as', ws)
    decreases |as'|
  {
    if as' != [] {
      assert as'[0] in as';
      forall n ensures Send(n, ws, false) !in as'[1..] {
        assert Send(n, ws, false) !in as';
      }
      StaysSubscribedWhen(Apply(s, as'[0]), as'[1..], ws);
    }
  }

  // ---- What the records say ----

  function Submits(as': seq<Action>): nat {
    if as' == [] then 0 else Submits(as'[..|as'| - 1]) + (if as'[|as'| - 1].Submit? then 1 else 0)
  }

  lemma {:induction false} NumbersCountSubmits(as': seq<Action>)
    requires Runs(Started, as')
    ensures After(Started, as').pool.lastSeqNum == Submits(as')
  {
    if as' != [] {
      var before := as'[..|as'| - 1];
      LastStep(Started, as');
      NumbersCountSubmits(before);
      StartedInv();
      RunKeepsInv(Started, before);
      StepSettles(After(Started, before), as'[|as'| - 1]);
    }
  }

  /** One step and one record: kept as it was submitted, or submitted now. */
  lemma StepKeepsRecord(s: State, a: Action, id: Id)
    requires s.pool.Numbered() && Enabled(s, a) && id in Apply(s, a).pool.records
    ensures var r' := Apply(s, a).pool.records[id];
            if id in s.pool.records then
              var r := s.pool.records[id];
              && r'.id == r.id && r'.seqNum == r.seqNum
              && r'.transaction == r.transaction && r'.submittedAt == r.submittedAt
            else
              && a.Submit? && a.id == id && r'.id == id && r'.seqNum == s.pool.lastSeqNum + 1
              && r'.transaction == a.transaction && r'.submittedAt == a.now
  {
    StepSettles(s, a);
    if id in s.pool.records {
      assert Settles(s.pool.records[id], Apply(s, a).pool.records[id]);
    }
  }

  /** This record was made by the action at `k`: it carries its transaction and its
      time, and the number of submissions up to it. */
  ghost predicate MadeBy(as': seq<Action>, k: nat, r: Record) {
    && k < |as'| && as'[k].Submit? && as'[k].id == r.id
    && r.transaction == as'[k].transaction && r.submittedAt == as'[k].now && r.seqNum == Submits(as'[..k + 1])
  }

  lemma MadeByStays(before: seq<Action>, last: Action, k: nat, r: Record, r': Record)
    requires MadeBy(before, k, r)
    requires r'.id == r.id && r'.seqNum == r.seqNum
    requires r'.transaction == r.transaction && r'.submittedAt == r.submittedAt
    ensures MadeBy(before + [last], k, r')
  {
    assert (before + [last])[..k + 1] == before[..k + 1];
  }

  lemma MadeNow(before: seq<Action>, last: Action, r: Record)
    requires last.Submit? && last.id == r.id && r.transaction == last.transaction && r.submittedAt == last.now
    requires r.seqNum == Submits(before) + 1
    ensures MadeBy(before + [last], |before|, r)
  {
    assert (before + [last])[..|before| + 1] == before + [last];
    assert (before + [last])[..|before|] == before;
  }

  lemma RunIsNumbered(as': seq<Action>)
    requires Runs(Started, as')
    ensures After(Started, as').pool.Numbered()
  {
    StartedInv();
    RunKeepsInv(Started, as');
  }

  /** In every run every record was made by a submission of the run. */
  lemma {:induction false} RecordsAsSubmitted(as': seq<Action>, id: Id) returns (k: nat)
    requires Runs(Started, as') && id in After(Started, as').pool.records
    ensures After(Started, as').pool.records[id].id == id && MadeBy(as', k, After(Started, as').pool.records[id])
  {
    var before, last := as'[..|as'| - 1], as'[|as'| - 1];
    LastStep(Started, as');
    RunIsNumbered(before);
    var s := After(Started, before);
    var r := After(Started, as').pool.records[id];
    StepKeepsRecord(s, last, id);
    assert as' == before + [last];
    if id in s.pool.records {
      k := RecordsAsSubmitted(before, id);
      MadeByStays(before, last, k, s.pool.records[id], r);
    } else {
      k := |before|;
      NumbersCountSubmits(before);
      MadeNow(before, last, r);
    }
  }

  lemma {:induction false} SubmittedIsRecorded(as': seq<Action>, k: nat)
    requires Runs(Started, as') && k < |as'| && as'[k].Submit?
    ensures as'[k].id in After(Started, as').pool.records
  {
    var before := as'[..|as'| - 1];
    LastStep(Started, as');
    StartedInv();
    RunKeepsInv(Started, before);
    StepSettles(After(Started, before), as'[|as'| - 1]);
    if k < |before| {
      SubmittedIsRecorded(before, k);
    }
  }

  // ---- The stream is delivered ----

  /** The steps of broadcasts already begun. */
  predicate Delivers(a: Action) {
    a.Send? || a.Finish?
  }

  predicate AllDeliver(as': seq<Action>) {
    forall i :: 0 <= i < |as'| ==> Delivers(as'[i])
  }

  function Left(c: Cast): nat {
    |c.todo| + (if c.finished then 0 else 1)
  }

  ghost function Load(casts: map<nat, Cast>): nat {
    if casts == map[] then 0
    else
      var n :| n in casts;
      Left(casts[n]) + Load(casts - {n})
  }

  lemma {:induction false} LoadWithout(casts: map<nat, Cast>, n: nat)
    requires n in casts
    ensures Load(casts) == Left(casts[n]) + Load(casts - {n})
    decreases |casts|
  {
    var k :| k in casts && Load(casts) == Left(casts[k]) + Load(casts - {k});
    if k != n {
      LoadWithout(casts - {k}, n);
      LoadWithout(casts - {n}, k);
      assert casts - {k} - {n} == casts - {n} - {k};
    }
  }

  lemma LoadMoved(casts: map<nat, Cast>, n: nat, c: Cast)
    requires n in casts
    ensures Load(casts[n := c]) == Load(casts) - Left(casts[n]) + Left(c)
  {
    LoadWithout(casts, n);
    LoadWithout(casts[n := c], n);
    assert casts[n := c] - {n} == casts - {n};
  }

  /** Every step of a broadcast leaves less to do, and the mempool alone. */
  lemma DeliveryStep(s: State, a: Action)
    requires Delivers(a) && Enabled(s, a)
    ensures Load(Apply(s, a).casts) < Load(s.casts) && Apply(s, a).pool == s.pool
  {
    LoadMoved(s.casts, a.seqNum, Apply(s, a).casts[a.seqNum]);
  }

  lemma {:induction false} DeliveryRun(s: State, as': seq<Action>)
    requires Inv(s) && Runs(s, as') && AllDeliver(as')
    ensures |as'| + Load(After(s, as').casts) <= Load(s.casts) && After(s, as').pool == s.pool
    ensures Inv(After(s, as'))
    decreases |as'|
  {
    if as' != [] {
      DeliveryStep(s, as'[0]);
      StepKeepsInv(s, as'[0]);
      DeliveryRun(Apply(s, as'[0]), as'[1..]);
    }
  }

  /** When no step of a broadcast is left, every record has been sent to every
      subscriber captured for it, once, and to nobody else. */
  lemma NothingLeftToSend(s: State)
    requires Inv(s) && !(exists a :: Delivers(a) && Enabled(s, a))
    ensures forall ws, n :: s.sent[(ws, n)] == if n in s.casts && ws in s.casts[n].targets then 1 else 0
  {
    forall ws, n ensures s.sent[(ws, n)] == if n in s.casts && ws in s.casts[n].targets then 1 else 0 {
      assert Addressed(s, ws, n) == if n in s.casts && ws in s.casts[n].targets then 1 else 0;
      if n in s.casts && ws in s.casts[n].todo {
        assert Delivers(Send(n, ws, true)) && Enabled(s, Send(n, ws, true));
      }
    }
  }

  /** What a client with a snapshot is owed is delivered: the broadcasts under way
      take a bounded number of further steps, and when none is left every record
      above the snapshot's boundary has been sent to the client exactly once. */
  lemma StreamIsDelivered(s: State, as': seq<Action>, ws: Ws, rest: seq<Action>)
    requires Inv(s) && Runs(s, as') && StaysSubscribed(s, as', ws)
    requires Runs(After(s, as'), rest) && AllDeliver(rest)
    ensures |rest| <= Load(After(s, as').casts)
    ensures var end := After(After(s, as'), rest);
            || (exists a :: Delivers(a) && Enabled(end, a))
            || forall id :: id in end.pool.records && end.pool.records[id].seqNum > s.pool.lastSeqNum ==>
                 end.sent[(ws, end.pool.records[id].seqNum)] == 1
  {
    var later := After(s, as');
    var end := After(later, rest);
    RunKeepsInv(s, as');
    DeliveryRun(later, rest);
    SnapshotPlusStreamHasNoGap(s, as', ws);
    if !(exists a :: Delivers(a) && Enabled(end, a)) {
      NothingLeftToSend(end);
      forall id | id in end.pool.records && end.pool.records[id].seqNum > s.pool.lastSeqNum
        ensures end.sent[(ws, end.pool.records[id].seqNum)] == 1
      {
        TargetsStay(later, rest, end.pool.records[id].seqNum);
        assert Addressed(later, ws, end.pool.records[id].seqNum) == 1;
      }
    }
  }

  lemma {:induction false} TargetsStay(s: State, as': seq<Action>, n: nat)
    requires Runs(s, as') && AllDeliver(as') && n in s.casts
    ensures n in After(s, as').casts && After(s, as').casts[n].targets == s.casts[n].targets
    decreases |as'|
  {
    if as' != [] {
      TargetsStay(Apply(s, as'[0]), as'[1..], n);
    }
  }

  // ---- The objects ----

  ghost predicate Mirrors(s: State, mempool: Mempool, broadcaster: PendingTransactionBroadcaster)
    reads mempool, mempool.repr, broadcaster
  {
    mempool.Valid() && mempool.Content() == s.pool && broadcaster.subscribers == s.subscribers
  }

  /** One step on the service's own mempool and broadcaster. */
  method Perform(s: State, a: Action, mempool: Mempool, broadcaster: PendingTransactionBroadcaster)
    requires Mirrors(s, mempool, broadcaster) && Enabled(s, a)
    modifies mempool, mempool.repr, broadcaster
    ensures Mirrors(Apply(s, a), mempool, broadcaster) && fresh(mempool.repr - old(mempool.repr))
  {
    match a {
      case Submit(id, transaction, now) =>
        var record := mempool.AddTransaction(transaction, id, now);
      case Send(_, _, _) =>
      case Finish(n) => broadcaster.Drop(s.casts[n].broken);
      case Connect(ws) => broadcaster.Connect(ws);
      case Disconnect(ws) => broadcaster.Disconnect(ws);
      case Mine(raw, reply, stamps) =>
        var items := ParseBundle(raw, s.pool);
        if items.Ok? {
          ParsedArePending(raw, s.pool);
          var answer := MineBundle(items.value, reply, stamps, mempool);
        }
    }
  }

  /** Any interleaving, performed on the objects, leaves them in the state the
      machine is in, so what is proved of its runs holds of them. */
  method Drive(as': seq<Action>, mempool: Mempool, broadcaster: PendingTransactionBroadcaster)
    requires Mirrors(Started, mempool, broadcaster) && Runs(Started, as')
    modifies mempool, mempool.repr, broadcaster
    ensures Mirrors(After(Started, as'), mempool, broadcaster) && Inv(After(Started, as'))
  {
    var now := Started;
    for i := 0 to |as'|
      invariant Mirrors(now, mempool, broadcaster) && fresh(mempool.repr - old(mempool.repr))
      invariant Runs(now, as'[i..]) && After(now, as'[i..]) == After(Started, as')
    {
      assert as'[i..][0] == as'[i] && as'[i..][1..] == as'[i + 1..];
      Perform(now, as'[i], mempool, broadcaster);
      now := Apply(now, as'[i]);
    }
    StartedInv();
    RunKeepsInv(Started, as');
  }
}
