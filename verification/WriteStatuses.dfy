/** The participant-local record of our own writes: their statuses, the latest
    displacement of each, and the publications not yet finalized. */
module WriteStatuses {
  import opened Wrappers
  import opened SqlHistory

  datatype Status = Live | Displaced | Finalized
  datatype Reason = Orphaned | PendingWriteInvalidated
  datatype Displacement = Displacement(id: nat, reason: Reason, payload: Write)
  datatype Row = Row(status: Status, displacement: Option<Displacement>, handled: bool)

  /** The channel message that carries one of our writes. */
  datatype Publication = Publication(msg: MsgId, content: Content)

  /** `order` lists the rows by their sequence number. `nextId` stands for the
      generator of displacement identities, which never repeats one. */
  datatype Tracking = Tracking(order: seq<TxId>, row: map<TxId, Row>, locals: map<TxId, Publication>, nextId: nat)

  /** A write seen in a channel event. */
  datatype Observed = Observed(msg: MsgId, write: Write)

  function ObserveBatch(msg: MsgId, ws: seq<Write>): seq<Observed>
  {
    if ws == [] then [] else [Observed(msg, ws[0])] + ObserveBatch(msg, ws[1..])
  }

  function Observe(history: seq<Inscription>): seq<Observed>
  {
    if history == [] then [] else ObserveBatch(history[0].msg, BatchWrites(history[0])) + Observe(history[1..])
  }

  // ---------------------------------------------------------------------------
  // Operations on the tables

  /** Insert the row, or change only its status. */
  function SetStatus(k: Tracking, tx: TxId, status: Status): Tracking
  {
    if tx in k.row then k.(row := k.row[tx := k.row[tx].(status := status)])
    else k.(order := k.order + [tx], row := k.row[tx := Row(status, None, true)])
  }

  function ClearDisplacement(k: Tracking, tx: TxId): Tracking
  {
    if tx in k.row then k.(row := k.row[tx := k.row[tx].(displacement := None, handled := true)]) else k
  }

  /** Insert the publication, or change only the message that carries it. */
  function UpsertLocal(k: Tracking, tx: TxId, msg: MsgId, content: Content): Tracking
  {
    k.(locals := k.locals[tx := Publication(msg, if tx in k.locals then k.locals[tx].content else content)])
  }

  function RecordDisplacement(k: Tracking, w: Write, reason: Reason): Tracking
  {
    var k' := SetStatus(k, w.tx, Displaced);
    if w.tx in k.row && k.row[w.tx].status == Displaced then k'
    else k'.(row := k'.row[w.tx := Row(Displaced, Some(Displacement(k.nextId, reason, w)), false)],
             nextId := k.nextId + 1)
  }

  /** Finalize every write that the message carries and stop tracking them. */
  function FinalizeMessage(k: Tracking, msg: MsgId): Tracking
  {
    k.(row := map tx | tx in k.row ::
                if tx in k.locals && k.locals[tx].msg == msg then Row(Finalized, None, true) else k.row[tx],
       locals := map tx | tx in k.locals && k.locals[tx].msg != msg :: k.locals[tx])
  }

  /** `None` when the event contradicts our publication, which aborts the
      transaction. */
  function OrphanWrite(k: Tracking, o: Observed): Option<Tracking>
  {
    if o.write.tx in k.locals && k.locals[o.write.tx].msg == o.msg then
      if k.locals[o.write.tx].content != o.write.content then None
      else Some(RecordDisplacement(k, o.write, Orphaned))
    else Some(k)
  }

  /** Restores a write that was orphaned with the same content. */
  function AdoptWrite(k: Tracking, o: Observed): Tracking
  {
    var tx := o.write.tx;
    if && tx in k.row
       && k.row[tx].status == Displaced
       && k.row[tx].displacement.Some?
       && k.row[tx].displacement.value.reason == Orphaned
       && k.row[tx].displacement.value.payload.content == o.write.content
    then UpsertLocal(ClearDisplacement(SetStatus(k, tx, Live), tx), tx, o.msg, o.write.content)
    else k
  }

  function FinalizeAll(k: Tracking, msgs: seq<MsgId>): Tracking
    decreases |msgs|
  {
    if msgs == [] then k else FinalizeAll(FinalizeMessage(k, msgs[0]), msgs[1..])
  }

  function OrphanAll(k: Tracking, os: seq<Observed>): Option<Tracking>
    decreases |os|
  {
    if os == [] then Some(k)
    else match OrphanWrite(k, os[0])
      case None => None
      case Some(k') => OrphanAll(k', os[1..])
  }

  function AdoptAll(k: Tracking, os: seq<Observed>): Tracking
    decreases |os|
  {
    if os == [] then k else AdoptAll(AdoptWrite(k, os[0]), os[1..])
  }

  function UpdateWriteStatuses(k: Tracking, finalized: seq<MsgId>, orphaned: seq<Observed>, adopted: seq<Observed>)
    : Option<Tracking>
  {
    match OrphanAll(FinalizeAll(k, finalized), orphaned)
    case None => None
    case Some(k') => Some(AdoptAll(k', adopted))
  }

  function PublishOne(k: Tracking, msg: MsgId, w: Write): Tracking
  {
    SetStatus(UpsertLocal(k, w.tx, msg, w.content), w.tx, Live)
  }

  /** The rows that `complete_batch` writes for one publication. */
  function PublishAll(k: Tracking, msg: MsgId, ws: seq<Write>): Tracking
    decreases |ws|
  {
    if ws == [] then k else PublishAll(PublishOne(k, msg, ws[0]), msg, ws[1..])
  }

  function MarkHandled(k: Tracking, tx: TxId, id: nat): Tracking
  {
    if tx in k.row && k.row[tx].displacement.Some? && k.row[tx].displacement.value.id == id
    then k.(row := k.row[tx := k.row[tx].(handled := true)])
    else k
  }

  predicate IsUnhandled(k: Tracking, tx: TxId)
  {
    tx in k.row && !k.row[tx].handled
  }

  /** `unhandled_displacements`: the rows still to be handled, by sequence. */
  function Unhandled(k: Tracking, order: seq<TxId>): seq<TxId>
  {
    if order == [] then []
    else (if IsUnhandled(k, order[0]) then [order[0]] else []) + Unhandled(k, order[1..])
  }

  // ---------------------------------------------------------------------------
  // Invariant and evolution

  ghost predicate ValidRow(k: Tracking, tx: TxId)
    requires tx in k.row
  {
    var r := k.row[tx];
    && (r.status == Displaced <==> r.displacement.Some?)
    && (!r.handled ==> r.status == Displaced)
    && (r.status == Finalized ==> tx !in k.locals)
    && (r.displacement.Some? ==> r.displacement.value.id < k.nextId)
  }

  ghost predicate ValidTracking(k: Tracking)
  {
    && (forall tx :: tx in k.order <==> tx in k.row)
    && (forall i, j :: 0 <= i < j < |k.order| ==> k.order[i] != k.order[j])
    && (forall tx :: tx in k.row ==> ValidRow(k, tx))
    && (forall tx :: tx in k.locals ==> tx in k.row)
  }

  /** What no operation ever undoes: rows are only appended, a finalized row is
      left alone, and a displacement keeps its identity until it is cleared or a
      newer one takes its place; once handled it stays handled. */
  ghost predicate RowEvolves(k: Tracking, k': Tracking, tx: TxId)
  {
    tx in k.row ==>
      && tx in k'.row
      && (k.row[tx].status == Finalized ==> k'.row[tx] == k.row[tx])
      && (var d, d' := k.row[tx].displacement, k'.row[tx].displacement;
          || d'.None?
          || d'.value.id >= k.nextId
          || (d == d' && (k.row[tx].handled ==> k'.row[tx].handled)))
  }

  ghost predicate Evolves(k: Tracking, k': Tracking)
  {
    && k.order <= k'.order
    && k.nextId <= k'.nextId
    && forall tx :: RowEvolves(k, k', tx)
  }

  lemma {:induction false} EvolvesIsTransitive(k: Tracking, k': Tracking, k'': Tracking)
    requires Evolves(k, k') && Evolves(k', k'')
    ensures Evolves(k, k'')
  {
    forall tx ensures RowEvolves(k, k'', tx) {
      assert RowEvolves(k, k', tx) && RowEvolves(k', k'', tx);
    }
  }

  lemma {:induction false} DisplacingIsValid(k: Tracking, w: Write, reason: Reason)
    requires ValidTracking(k)
    requires w.tx in k.row ==> k.row[w.tx].status != Finalized
    ensures ValidTracking(RecordDisplacement(k, w, reason)) && Evolves(k, RecordDisplacement(k, w, reason))
    ensures RecordDisplacement(k, w, reason).order == if w.tx in k.row then k.order else k.order + [w.tx]
    ensures w.tx in RecordDisplacement(k, w, reason).row
    ensures var row := RecordDisplacement(k, w, reason).row[w.tx];
      if w.tx in k.row && k.row[w.tx].status == Displaced then row == k.row[w.tx]
      else row == Row(Displaced, Some(Displacement(k.nextId, reason, w)), false)
    ensures forall tx :: tx in k.row && tx != w.tx ==> RecordDisplacement(k, w, reason).row[tx] == k.row[tx]
    ensures RecordDisplacement(k, w, reason).locals == k.locals
  {
    var k' := RecordDisplacement(k, w, reason);
    assert forall tx :: tx in k'.row && tx != w.tx ==> tx in k.row && k'.row[tx] == k.row[tx];
    assert w.tx in k.row ==> ValidRow(k, w.tx);
    forall tx | tx in k'.row ensures ValidRow(k', tx) {
      if tx != w.tx {
        assert ValidRow(k, tx);
      }
    }
  }

  lemma {:induction false} FinalizingIsValid(k: Tracking, msg: MsgId)
    requires ValidTracking(k)
    ensures ValidTracking(FinalizeMessage(k, msg)) && Evolves(k, FinalizeMessage(k, msg))
    ensures FinalizeMessage(k, msg).order == k.order
  {
    var k' := FinalizeMessage(k, msg);
    forall tx | tx in k'.row ensures ValidRow(k', tx) {
      assert ValidRow(k, tx);
    }
    forall tx ensures RowEvolves(k, k', tx) {
      if tx in k.row {
        assert ValidRow(k, tx);
      }
    }
  }

  lemma {:induction false} OrphaningIsValid(k: Tracking, o: Observed)
    requires ValidTracking(k) && OrphanWrite(k, o).Some?
    ensures ValidTracking(OrphanWrite(k, o).value) && Evolves(k, OrphanWrite(k, o).value)
    ensures OrphanWrite(k, o).value.order == k.order && OrphanWrite(k, o).value.locals == k.locals
  {
    if o.write.tx in k.locals && k.locals[o.write.tx].msg == o.msg {
      assert ValidRow(k, o.write.tx);
      DisplacingIsValid(k, o.write, Orphaned);
    }
  }

  lemma {:induction false} AdoptingIsValid(k: Tracking, o: Observed)
    requires ValidTracking(k)
    ensures ValidTracking(AdoptWrite(k, o)) && Evolves(k, AdoptWrite(k, o))
    ensures AdoptWrite(k, o).order == k.order
  {
    var k' := AdoptWrite(k, o);
    assert forall tx :: tx in k'.row <==> tx in k.row;
    forall tx | tx in k'.row ensures ValidRow(k', tx) && RowEvolves(k, k', tx) {
      AdoptingRowIsValid(k, o, tx);
    }
  }

  lemma {:induction false} AdoptingRowIsValid(k: Tracking, o: Observed, tx: TxId)
    requires ValidTracking(k) && tx in k.row
    ensures tx in AdoptWrite(k, o).row && ValidRow(AdoptWrite(k, o), tx) && RowEvolves(k, AdoptWrite(k, o), tx)
  {
    assert ValidRow(k, tx);
  }

  lemma {:induction false} FinalizingAllIsValid(k: Tracking, msgs: seq<MsgId>)
    requires ValidTracking(k)
    ensures ValidTracking(FinalizeAll(k, msgs)) && Evolves(k, FinalizeAll(k, msgs))
    ensures FinalizeAll(k, msgs).order == k.order
    decreases |msgs|
  {
    if msgs != [] {
      FinalizingIsValid(k, msgs[0]);
      FinalizingAllIsValid(FinalizeMessage(k, msgs[0]), msgs[1..]);
      EvolvesIsTransitive(k, FinalizeMessage(k, msgs[0]), FinalizeAll(k, msgs));
    }
  }

  lemma {:induction false} OrphaningAllIsValid(k: Tracking, os: seq<Observed>)
    requires ValidTracking(k) && OrphanAll(k, os).Some?
    ensures var k' := OrphanAll(k, os).value; ValidTracking(k') && Evolves(k, k') && k'.order == k.order
    decreases |os|
  {
    if os != [] {
      OrphaningIsValid(k, os[0]);
      var k' := OrphanWrite(k, os[0]).value;
      OrphaningAllIsValid(k', os[1..]);
      EvolvesIsTransitive(k, k', OrphanAll(k, os).value);
    }
  }

  lemma {:induction false} AdoptingAllIsValid(k: Tracking, os: seq<Observed>)
    requires ValidTracking(k)
    ensures var k' := AdoptAll(k, os); ValidTracking(k') && Evolves(k, k') && k'.order == k.order
    decreases |os|
  {
    if os != [] {
      AdoptingIsValid(k, os[0]);
      AdoptingAllIsValid(AdoptWrite(k, os[0]), os[1..]);
      EvolvesIsTransitive(k, AdoptWrite(k, os[0]), AdoptAll(k, os));
    }
  }

  /** A channel event adds no row, never leaves `Finalized`, and reopens nothing. */
  lemma {:induction false} UpdatingIsValid(k: Tracking, finalized: seq<MsgId>, orphaned: seq<Observed>,
                                           adopted: seq<Observed>)
    requires ValidTracking(k) && UpdateWriteStatuses(k, finalized, orphaned, adopted).Some?
    ensures var k' := UpdateWriteStatuses(k, finalized, orphaned, adopted).value;
      ValidTracking(k') && Evolves(k, k') && k'.order == k.order
  {
    var k1 := FinalizeAll(k, finalized);
    FinalizingAllIsValid(k, finalized);
    OrphaningAllIsValid(k1, orphaned);
    var k2 := OrphanAll(k1, orphaned).value;
    AdoptingAllIsValid(k2, adopted);
    EvolvesIsTransitive(k, k1, k2);
    EvolvesIsTransitive(k, k2, AdoptAll(k2, adopted));
  }

  /** Handling the displacement with an older identity leaves a newer one open. */
  lemma {:induction false} HandlingIsValid(k: Tracking, tx: TxId, id: nat)
    requires ValidTracking(k)
    ensures ValidTracking(MarkHandled(k, tx, id)) && Evolves(k, MarkHandled(k, tx, id))
    ensures MarkHandled(k, tx, id).order == k.order && MarkHandled(k, tx, id).locals == k.locals
    ensures tx in k.row && k.row[tx].displacement.Some? && k.row[tx].displacement.value.id == id ==>
      tx in MarkHandled(k, tx, id).row && MarkHandled(k, tx, id).row[tx] == k.row[tx].(handled := true)
    ensures forall tx' :: tx' in k.row && k.row[tx'].displacement.Some? && k.row[tx'].displacement.value.id != id
              ==> tx' in MarkHandled(k, tx, id).row && MarkHandled(k, tx, id).row[tx'] == k.row[tx']
  {
    var k' := MarkHandled(k, tx, id);
    forall t | t in k'.row ensures ValidRow(k', t) {
      assert ValidRow(k, t);
    }
  }

  /** The batch's writes have no row yet, or are live. */
  ghost predicate Publishable(k: Tracking, ws: seq<Write>)
  {
    forall w :: w in ws && w.tx in k.row ==> k.row[w.tx].status == Live
  }

  function Ids(ws: seq<Write>): (ids: seq<TxId>)
    ensures |ids| == |ws|
  {
    if ws == [] then [] else [ws[0].tx] + Ids(ws[1..])
  }

  lemma {:induction false} PublishingOneIsValid(k: Tracking, msg: MsgId, w: Write)
    requires ValidTracking(k) && Publishable(k, [w])
    ensures ValidTracking(PublishOne(k, msg, w)) && Evolves(k, PublishOne(k, msg, w))
    ensures forall tx :: tx in k.row && tx != w.tx ==>
      tx in PublishOne(k, msg, w).row && PublishOne(k, msg, w).row[tx] == k.row[tx]
    ensures w.tx in PublishOne(k, msg, w).row && PublishOne(k, msg, w).row[w.tx].status == Live
    ensures forall tx :: tx in PublishOne(k, msg, w).row ==> tx in k.row || tx == w.tx
    ensures PublishOne(k, msg, w).order == if w.tx in k.row then k.order else k.order + [w.tx]
  {
    var k' := PublishOne(k, msg, w);
    assert w in [w];
    assert w.tx in k.row ==> ValidRow(k, w.tx);
    forall tx | tx in k'.row ensures ValidRow(k', tx) {
      if tx in k.row { assert ValidRow(k, tx); }
    }
  }

  /** Publishing makes every write of the batch live and touches no other row. */
  lemma {:induction false} PublishingIsValid(k: Tracking, msg: MsgId, ws: seq<Write>)
    requires ValidTracking(k) && Publishable(k, ws)
    ensures ValidTracking(PublishAll(k, msg, ws)) && Evolves(k, PublishAll(k, msg, ws))
    ensures forall tx :: tx in k.row && tx !in Ids(ws) ==>
      tx in PublishAll(k, msg, ws).row && PublishAll(k, msg, ws).row[tx] == k.row[tx]
    ensures forall tx :: tx in Ids(ws) ==>
      tx in PublishAll(k, msg, ws).row && PublishAll(k, msg, ws).row[tx].status == Live
    decreases |ws|
  {
    if ws != [] {
      var w := ws[0];
      var k' := PublishOne(k, msg, w);
      assert ws == [w] + ws[1..];
      assert Publishable(k, [w]);
      PublishingOneIsValid(k, msg, w);
      PublishingIsValid(k', msg, ws[1..]);
      EvolvesIsTransitive(k, k', PublishAll(k, msg, ws));
    }
  }

  /** The write is recorded as live and carried by the message. The content is that of
      its first publication. */
  ghost predicate PublishedAs(k: Tracking, k': Tracking, msg: MsgId, w: Write)
  {
    && w.tx in k'.row
    && k'.row[w.tx] == (if w.tx in k.row then k.row[w.tx].(status := Live) else Row(Live, None, true))
    && w.tx in k'.locals
    && k'.locals[w.tx] == Publication(msg, if w.tx in k.locals then k.locals[w.tx].content else w.content)
  }

  /** Publishing records every write of the batch under its message, and nothing else. */
  lemma {:induction false} PublishingRecordsBatch(k: Tracking, msg: MsgId, ws: seq<Write>)
    requires DistinctIds(ws)
    ensures forall w :: w in ws ==> PublishedAs(k, PublishAll(k, msg, ws), msg, w)
    ensures forall tx :: tx !in Ids(ws) ==> SameRecord(k, PublishAll(k, msg, ws), tx)
    decreases |ws|
  {
    if ws != [] {
      var k1, k' := PublishOne(k, msg, ws[0]), PublishAll(k, msg, ws);
      PublishingRecordsBatch(k1, msg, ws[1..]);
      assert ws == [ws[0]] + ws[1..];
      IdsOfOthers(ws[1..], ws[0].tx);
      assert PublishedAs(k, k1, msg, ws[0]) && SameRecord(k1, k', ws[0].tx);
      forall w | w in ws[1..] ensures PublishedAs(k, k', msg, w) {
        var i :| 0 <= i < |ws[1..]| && ws[1..][i] == w;
        assert ws[0].tx != ws[i + 1].tx && SameRecord(k, k1, w.tx) && PublishedAs(k1, k', msg, w);
      }
      forall tx | tx !in Ids(ws) ensures SameRecord(k, k', tx) {
        assert SameRecord(k, k1, tx) && SameRecord(k1, k', tx);
      }
    }
  }

  ghost predicate SameRecord(k: Tracking, k': Tracking, tx: TxId)
  {
    && (tx in k'.row <==> tx in k.row) && (tx in k.row ==> k'.row[tx] == k.row[tx])
    && (tx in k'.locals <==> tx in k.locals) && (tx in k.locals ==> k'.locals[tx] == k.locals[tx])
  }

  lemma {:induction false} IdsOfOthers(ws: seq<Write>, tx: TxId)
    requires forall i :: 0 <= i < |ws| ==> ws[i].tx != tx
    ensures tx !in Ids(ws)
  {
    if ws != [] {
      IdsOfOthers(ws[1..], tx);
    }
  }

  /** Publishing appends the rows of new writes in batch order. */
  lemma {:induction false} PublishingAppendsRows(k: Tracking, msg: MsgId, ws: seq<Write>)
    requires forall w :: w in ws ==> w.tx !in k.row
    requires forall i, j :: 0 <= i < j < |ws| ==> ws[i].tx != ws[j].tx
    ensures PublishAll(k, msg, ws).order == k.order + Ids(ws)
    decreases |ws|
  {
    if ws != [] {
      var k' := PublishOne(k, msg, ws[0]);
      forall w | w in ws[1..] ensures w.tx !in k'.row {
        var i :| 0 <= i < |ws[1..]| && ws[1..][i] == w;
        assert ws[0].tx != ws[i + 1].tx;
      }
      PublishingAppendsRows(k', msg, ws[1..]);
      assert k'.order == k.order + [ws[0].tx];
      assert Ids(ws) == [ws[0].tx] + Ids(ws[1..]);
    }
  }

  /** Publishing adds rows and publications for the batch only. */
  lemma {:induction false} PublishingAddsOnlyTheBatch(k: Tracking, msg: MsgId, ws: seq<Write>, tx: TxId)
    requires tx !in Ids(ws)
    ensures tx in PublishAll(k, msg, ws).row <==> tx in k.row
    ensures tx in PublishAll(k, msg, ws).locals <==> tx in k.locals
    decreases |ws|
  {
    if ws != [] {
      assert Ids(ws) == [ws[0].tx] + Ids(ws[1..]);
      PublishingAddsOnlyTheBatch(PublishOne(k, msg, ws[0]), msg, ws[1..], tx);
    }
  }

  /** Repeating a publication adds no row. */
  lemma {:induction false} PublishingAgainAddsNoRow(k: Tracking, msg: MsgId, ws: seq<Write>)
    requires forall w :: w in ws ==> w.tx in k.row
    ensures PublishAll(k, msg, ws).order == k.order
    decreases |ws|
  {
    if ws != [] {
      PublishingAgainAddsNoRow(PublishOne(k, msg, ws[0]), msg, ws[1..]);
    }
  }

  /** A write that is not tracked as published and not restored keeps its row. */
  ghost predicate Untouched(k: Tracking, k': Tracking, tx: TxId)
  {
    && tx !in k.locals && tx !in k'.locals
    && (tx in k.row <==> tx in k'.row)
    && (tx in k.row ==> k'.row[tx] == k.row[tx])
  }

  lemma {:induction false} FinalizingLeavesUnpublished(k: Tracking, msgs: seq<MsgId>, tx: TxId)
    requires tx !in k.locals
    ensures Untouched(k, FinalizeAll(k, msgs), tx)
    decreases |msgs|
  {
    if msgs != [] {
      FinalizingLeavesUnpublished(FinalizeMessage(k, msgs[0]), msgs[1..], tx);
    }
  }

  lemma {:induction false} OrphaningLeavesUnpublished(k: Tracking, os: seq<Observed>, tx: TxId)
    requires tx !in k.locals && OrphanAll(k, os).Some?
    ensures Untouched(k, OrphanAll(k, os).value, tx)
    decreases |os|
  {
    if os != [] {
      OrphaningLeavesUnpublished(OrphanWrite(k, os[0]).value, os[1..], tx);
    }
  }

  lemma {:induction false} AdoptingLeavesUnobserved(k: Tracking, os: seq<Observed>, tx: TxId)
    requires tx !in k.locals && forall o :: o in os ==> o.write.tx != tx
    ensures Untouched(k, AdoptAll(k, os), tx)
    decreases |os|
  {
    if os != [] {
      assert os[0] in os;
      AdoptingLeavesUnobserved(AdoptWrite(k, os[0]), os[1..], tx);
    }
  }

  lemma {:induction false} UpdatingLeavesUnpublished(k: Tracking, finalized: seq<MsgId>, orphaned: seq<Observed>,
                                                     adopted: seq<Observed>, tx: TxId)
    requires UpdateWriteStatuses(k, finalized, orphaned, adopted).Some?
    requires tx !in k.locals && forall o :: o in adopted ==> o.write.tx != tx
    ensures Untouched(k, UpdateWriteStatuses(k, finalized, orphaned, adopted).value, tx)
  {
    FinalizingLeavesUnpublished(k, finalized, tx);
    var k1 := FinalizeAll(k, finalized);
    OrphaningLeavesUnpublished(k1, orphaned, tx);
    AdoptingLeavesUnobserved(OrphanAll(k1, orphaned).value, adopted, tx);
  }
}
