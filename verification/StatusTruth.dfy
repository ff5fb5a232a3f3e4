/** When the recorded statuses of our writes are true of the channel, and what one
    status update does to that. */
module StatusTruth {
  import opened Wrappers
  import opened SqlHistory
  import opened WriteStatuses
  import opened Commits
  import opened Convergence
  import opened QueueLemmas

  /** The writes that the channel carries at a saved position. */
  datatype Channel = Channel(finalized: seq<Observed>, history: seq<Observed>)

  function ChannelAt(v: View): Channel
  {
    Channel(Observe(v.finalized), Observe(v.history))
  }

  ghost predicate Seen(os: seq<Observed>, w: Write)
  {
    exists o :: o in os && o.write == w
  }

  /** Our write, as its publication recorded it. */
  function Own(k: Tracking, tx: TxId): Write
    requires tx in k.locals
  {
    Write(tx, k.locals[tx].content)
  }

  /** A live write is in the saved history under its recorded message, a finalized one in
      the finalized history, and a displaced one in neither. */
  ghost predicate TrueRow(k: Tracking, c: Channel, tx: TxId)
    requires tx in k.row
  {
    var r := k.row[tx];
    match r.status
    case Live => tx in k.locals && Observed(k.locals[tx].msg, Own(k, tx)) in c.history
    case Finalized => exists o :: o in c.finalized && o.write.tx == tx
    case Displaced =>
      && r.displacement.Some?
      && var d := r.displacement.value;
      && d.payload.tx == tx && !Seen(c.finalized, d.payload) && !Seen(c.history, d.payload)
      && (if d.reason == Orphaned then tx in k.locals && d.payload == Own(k, tx) else tx !in k.locals)
  }

  ghost predicate StatusesTrue(k: Tracking, c: Channel)
  {
    forall tx :: tx in k.row ==> TrueRow(k, c, tx)
  }

  /** The update reports the change from `c` to `c'`: what leaves the history is finalized
      or orphaned and what arrives is adopted, all of it when anything is orphaned; a
      message names one payload; a write that was never published is not in the
      channel. */
  ghost predicate Reports(k: Tracking, c: Channel, msgs: seq<MsgId>, orphaned: seq<Observed>, adopted: seq<Observed>,
                          c': Channel)
  {
    && (forall o :: o in c.finalized ==> o in c'.finalized)
    && (forall o :: o in c.history ==> o.msg in msgs || o in orphaned || o in c'.history)
    && (forall o :: o in adopted ==> o in c'.history)
    && (forall o :: o in c'.history ==> o in adopted || (orphaned == [] && o in c.history))
    && (forall tx :: tx in k.locals && k.locals[tx].msg in msgs ==>
          Observed(k.locals[tx].msg, Own(k, tx)) in c'.finalized)
    && UnknownUnlessPublished(k, c')
  }

  predicate NeverPublished(k: Tracking, tx: TxId)
    requires tx in k.row
  {
    k.row[tx].displacement.Some? && k.row[tx].displacement.value.reason == PendingWriteInvalidated
  }

  ghost predicate UnknownUnlessPublished(k: Tracking, c: Channel)
  {
    forall tx :: tx in k.row && NeverPublished(k, tx) ==>
      var w := k.row[tx].displacement.value.payload; !Seen(c.finalized, w) && !Seen(c.history, w)
  }

  /** Our write is orphaned, before or by this update, and is finalized under another
      message than the recorded one, without being adopted again. */
  ghost predicate ReturnsUnnoticed(k: Tracking, msgs: seq<MsgId>, orphaned: seq<Observed>, adopted: seq<Observed>,
                                   c': Channel, tx: TxId)
  {
    && tx in k.row && tx in k.locals && k.locals[tx].msg !in msgs
    && (k.row[tx].status == Displaced || Observed(k.locals[tx].msg, Own(k, tx)) in orphaned)
    && Seen(c'.finalized, Own(k, tx)) && !Seen(adopted, Own(k, tx))
  }

  // ---------------------------------------------------------------------------
  // One row at a time

  ghost predicate SameAt(k: Tracking, k': Tracking, tx: TxId)
    requires tx in k.row
  {
    && tx in k'.row && k'.row[tx] == k.row[tx]
    && (tx in k'.locals <==> tx in k.locals)
    && (tx in k.locals ==> k'.locals[tx] == k.locals[tx])
  }

  lemma {:induction false} RowAfterFinalizing(k: Tracking, msgs: seq<MsgId>, tx: TxId)
    requires tx in k.row
    ensures var k' := FinalizeAll(k, msgs);
      if tx in k.locals && k.locals[tx].msg in msgs then
        tx in k'.row && k'.row[tx] == Row(Finalized, None, true) && tx !in k'.locals
      else SameAt(k, k', tx)
    decreases |msgs|
  {
    if msgs != [] {
      var k1 := FinalizeMessage(k, msgs[0]);
      RowAfterFinalizing(k1, msgs[1..], tx);
      assert msgs == [msgs[0]] + msgs[1..];
    }
  }

  /** An orphaned write is displaced under its own payload, unless it is already. */
  ghost predicate OrphanedAt(k: Tracking, k': Tracking, tx: TxId)
    requires tx in k.row && tx in k.locals
  {
    && tx in k'.row && tx in k'.locals && k'.locals[tx] == k.locals[tx]
    && if k.row[tx].status == Displaced then k'.row[tx] == k.row[tx]
       else
         && k'.row[tx].status == Displaced && k'.row[tx].displacement.Some?
         && k'.row[tx].displacement.value.reason == Orphaned
         && k'.row[tx].displacement.value.payload == Own(k, tx)
  }

  lemma {:induction false} RowAfterOrphaning(k: Tracking, os: seq<Observed>, tx: TxId)
    requires tx in k.row && OrphanAll(k, os).Some?
    ensures var k' := OrphanAll(k, os).value;
      if tx in k.locals && Observed(k.locals[tx].msg, Own(k, tx)) in os then OrphanedAt(k, k', tx)
      else SameAt(k, k', tx)
    decreases |os|
  {
    if os != [] {
      var k1 := OrphanWrite(k, os[0]).value;
      RowAfterOrphaning(k1, os[1..], tx);
      assert os == [os[0]] + os[1..];
      assert os[0].write == Write(os[0].write.tx, os[0].write.content);
    }
  }

  /** A displaced write can be restored by adopting it. */
  ghost predicate Restorable(k: Tracking, os: seq<Observed>, tx: TxId)
    requires tx in k.row
  {
    var r := k.row[tx];
    && r.status == Displaced && r.displacement.Some? && r.displacement.value.reason == Orphaned
    && Seen(os, Write(tx, r.displacement.value.payload.content))
  }

  /** The restored write is live under the message of one of its adoptions. */
  ghost predicate RestoredAt(k: Tracking, k': Tracking, os: seq<Observed>, tx: TxId)
    requires tx in k.row && k.row[tx].displacement.Some?
  {
    && tx in k'.row && k'.row[tx] == Row(Live, None, true) && tx in k'.locals
    && (tx in k.locals ==> k'.locals[tx].content == k.locals[tx].content)
    && Observed(k'.locals[tx].msg, Write(tx, k.row[tx].displacement.value.payload.content)) in os
  }

  lemma {:induction false} RowAfterAdopting(k: Tracking, os: seq<Observed>, tx: TxId)
    requires tx in k.row
    ensures if Restorable(k, os, tx) then RestoredAt(k, AdoptAll(k, os), os, tx) else SameAt(k, AdoptAll(k, os), tx)
    decreases |os|
  {
    if os != [] {
      var o, k1 := os[0], AdoptWrite(k, os[0]);
      assert os == [o] + os[1..];
      RowAfterAdopting(k1, os[1..], tx);
      assert o.write == Write(o.write.tx, o.write.content) && o == Observed(o.msg, o.write);
      if k1.row[tx] != k.row[tx] {
        assert Seen(os, o.write);
      }
    }
  }

  /** The event names another content under the message that we recorded. */
  ghost predicate Contradicts(k: Tracking, o: Observed)
  {
    o.write.tx in k.locals && k.locals[o.write.tx].msg == o.msg && k.locals[o.write.tx].content != o.write.content
  }

  lemma {:induction false} OrphaningFailsExactlyWhenContradicted(k: Tracking, os: seq<Observed>)
    ensures OrphanAll(k, os).None? <==> exists o :: o in os && Contradicts(k, o)
    decreases |os|
  {
    if os != [] {
      assert os == [os[0]] + os[1..];
      if Contradicts(k, os[0]) {
        assert os[0] in os;
      } else {
        var k1 := OrphanWrite(k, os[0]).value;
        OrphaningFailsExactlyWhenContradicted(k1, os[1..]);
        assert k1.locals == k.locals;
        assert forall o :: Contradicts(k1, o) <==> Contradicts(k, o);
      }
    }
  }

  /** A status update is refused exactly when an orphaned write contradicts a publication of
      ours that the same update does not finalize. */
  lemma {:induction false} UpdateFailsExactlyWhenContradicted(k: Tracking, msgs: seq<MsgId>, orphaned: seq<Observed>,
                                                              adopted: seq<Observed>)
    ensures UpdateWriteStatuses(k, msgs, orphaned, adopted).None?
       <==> exists o :: o in orphaned && o.msg !in msgs && Contradicts(k, o)
  {
    var k1 := FinalizeAll(k, msgs);
    OrphaningFailsExactlyWhenContradicted(k1, orphaned);
    LocalsAfterFinalizing(k, msgs);
    forall o ensures Contradicts(k1, o) <==> o.msg !in msgs && Contradicts(k, o) {
    }
    if exists o :: o in orphaned && o.msg !in msgs && Contradicts(k, o) {
      var o :| o in orphaned && o.msg !in msgs && Contradicts(k, o);
      assert Contradicts(k1, o);
    }
  }

  lemma {:induction false} LocalsAfterFinalizing(k: Tracking, msgs: seq<MsgId>)
    ensures var k' := FinalizeAll(k, msgs);
      forall tx :: (tx in k'.locals <==> tx in k.locals && k.locals[tx].msg !in msgs)
        && (tx in k'.locals ==> k'.locals[tx] == k.locals[tx])
    decreases |msgs|
  {
    if msgs != [] {
      LocalsAfterFinalizing(FinalizeMessage(k, msgs[0]), msgs[1..]);
      assert msgs == [msgs[0]] + msgs[1..];
    }
  }

  // ---------------------------------------------------------------------------
  // The update

  lemma {:induction false} RowStaysTrueExactly(k: Tracking, c: Channel, msgs: seq<MsgId>, orphaned: seq<Observed>,
                                               adopted: seq<Observed>, c': Channel, tx: TxId)
    requires ValidTracking(k) && tx in k.row && TrueRow(k, c, tx) && Reports(k, c, msgs, orphaned, adopted, c')
    requires UpdateWriteStatuses(k, msgs, orphaned, adopted).Some?
    ensures var k' := UpdateWriteStatuses(k, msgs, orphaned, adopted).value;
      tx in k'.row && (TrueRow(k', c', tx) <==> !ReturnsUnnoticed(k, msgs, orphaned, adopted, c', tx))
  {
    var k1 := FinalizeAll(k, msgs);
    var k2 := OrphanAll(k1, orphaned).value;
    assert ValidRow(k, tx);
    RowAfterFinalizing(k, msgs, tx);
    RowAfterOrphaning(k1, orphaned, tx);
    RowAfterAdopting(k2, adopted, tx);
  }

  /** True statuses stay true through an update exactly when none of our orphaned writes
      returns unnoticed. */
  lemma {:induction false} StatusesStayTrueExactlyWhenNoticed(k: Tracking, c: Channel, msgs: seq<MsgId>,
                                                              orphaned: seq<Observed>, adopted: seq<Observed>,
                                                              c': Channel)
    requires ValidTracking(k) && StatusesTrue(k, c) && Reports(k, c, msgs, orphaned, adopted, c')
    requires UpdateWriteStatuses(k, msgs, orphaned, adopted).Some?
    ensures StatusesTrue(UpdateWriteStatuses(k, msgs, orphaned, adopted).value, c')
       <==> forall tx :: !ReturnsUnnoticed(k, msgs, orphaned, adopted, c', tx)
  {
    var k' := UpdateWriteStatuses(k, msgs, orphaned, adopted).value;
    UpdatingIsValid(k, msgs, orphaned, adopted);
    assert forall tx :: tx in k.row <==> tx in k'.row;
    forall tx | tx in k.row
      ensures TrueRow(k', c', tx) <==> !ReturnsUnnoticed(k, msgs, orphaned, adopted, c', tx)
    {
      RowStaysTrueExactly(k, c, msgs, orphaned, adopted, c', tx);
    }
  }

  // ---------------------------------------------------------------------------
  // Publication, displacement from the queue, and handling

  /** Publishing new writes at the tip of the history keeps true statuses true. */
  lemma {:induction false} PublishingKeepsStatusesTrue(k: Tracking, v: View, msg: MsgId, ws: seq<Write>)
    requires ValidTracking(k) && StatusesTrue(k, ChannelAt(v)) && DistinctIds(ws)
    requires forall w :: w in ws ==> w.tx !in k.row
    ensures StatusesTrue(PublishAll(k, msg, ws),
                         ChannelAt(View(v.finalized, v.history + [Inscription(msg, Some(ws))])))
  {
    var k', i := PublishAll(k, msg, ws), Inscription(msg, Some(ws));
    var c, c' := ChannelAt(v), ChannelAt(View(v.finalized, v.history + [i]));
    PublishingRecordsBatch(k, msg, ws);
    IdsContain(ws);
    forall tx | tx in k'.row ensures TrueRow(k', c', tx) {
      if tx in Ids(ws) {
        var w :| w in ws && w.tx == tx;
        assert PublishedAs(k, k', msg, w);
        ObservedExactlyWithin(v.history + [i], Observed(msg, w));
        assert i in v.history + [i];
      } else {
        assert SameRecord(k, k', tx);
        ExtendedRowStaysTrue(k, v, i, tx);
      }
    }
  }

  /** A row about another write is not affected by one more inscription. */
  lemma {:induction false} ExtendedRowStaysTrue(k: Tracking, v: View, i: Inscription, tx: TxId)
    requires tx in k.row && TrueRow(k, ChannelAt(v), tx) && forall w :: w in BatchWrites(i) ==> w.tx != tx
    ensures TrueRow(k, ChannelAt(View(v.finalized, v.history + [i])), tx)
  {
    var more := v.history + [i];
    forall o ensures o in Observe(v.history) ==> o in Observe(more)
             ensures o in Observe(more) ==> o in Observe(v.history) || o.write in BatchWrites(i) {
      ObservedExactlyWithin(v.history, o);
      ObservedExactlyWithin(more, o);
    }
  }

  /** So does displacing a queued write that was never published. */
  lemma {:induction false} DisplacingKeepsStatusesTrue(k: Tracking, c: Channel, w: Write)
    requires StatusesTrue(k, c) && w.tx !in k.row && w.tx !in k.locals
    requires !Seen(c.finalized, w) && !Seen(c.history, w)
    ensures StatusesTrue(RecordDisplacement(k, w, PendingWriteInvalidated), c)
  {
    var k' := RecordDisplacement(k, w, PendingWriteInvalidated);
    forall tx | tx in k'.row ensures TrueRow(k', c, tx) {
      if tx != w.tx {
        assert TrueRow(k, c, tx);
      }
    }
  }

  /** And so does handling a displacement. */
  lemma {:induction false} HandlingKeepsStatusesTrue(k: Tracking, c: Channel, tx: TxId, id: nat)
    requires StatusesTrue(k, c)
    ensures StatusesTrue(MarkHandled(k, tx, id), c)
  {
    forall x | x in MarkHandled(k, tx, id).row ensures TrueRow(MarkHandled(k, tx, id), c, x) {
      assert TrueRow(k, c, x);
    }
  }

  // ---------------------------------------------------------------------------
  // Events

  /** What an event's lists say about the change of the history, when `adopted` is passed
      to the update: for a direct application the adopted inscriptions, for a rebuild the
      whole new history. */
  ghost predicate Accounts(v: View, ev: Event, adopted: seq<Inscription>)
  {
    && ev.view.finalized == v.finalized + ev.finalized
    && (forall i :: i in v.history ==> i in ev.finalized || i in ev.orphaned || i in ev.view.history)
    && (forall i :: i in adopted ==> i in ev.view.history)
    && (forall i :: i in ev.view.history ==> i in adopted || (ev.orphaned == [] && i in v.history))
  }

  lemma {:induction false} ExtensionAccounts(v: View, ev: Event)
    requires Extends(v, ev) && ev.orphaned == []
    ensures Accounts(v, ev, ev.adopted)
  {
    if ev.finalized <= v.history {
      assert v.history == ev.finalized + v.history[|ev.finalized|..];
    }
  }

  /** A message that the event finalizes carries the write we recorded for it. */
  ghost predicate NamesPayloads(k: Tracking, finalized: seq<Inscription>)
  {
    forall tx, i :: tx in k.locals && i in finalized && i.msg == k.locals[tx].msg ==> Own(k, tx) in BatchWrites(i)
  }

  lemma {:induction false} AccountsReports(k: Tracking, v: View, ev: Event, adopted: seq<Inscription>)
    requires Accounts(v, ev, adopted) && NamesPayloads(k, ev.finalized) && UnknownUnlessPublished(k, ChannelAt(ev.view))
    ensures Reports(k, ChannelAt(v), Messages(ev.finalized), Observe(ev.orphaned), Observe(adopted), ChannelAt(ev.view))
  {
    var c, c' := ChannelAt(v), ChannelAt(ev.view);
    forall o
      ensures o in c.finalized ==> o in c'.finalized
      ensures o in c.history ==> o.msg in Messages(ev.finalized) || o in Observe(ev.orphaned) || o in c'.history
      ensures o in Observe(adopted) ==> o in c'.history
      ensures o in c'.history ==> o in Observe(adopted) || (ev.orphaned == [] && o in c.history)
    {
      EachIsAccounted(v, ev, adopted, o);
    }
    forall tx | tx in k.locals && k.locals[tx].msg in Messages(ev.finalized)
      ensures Observed(k.locals[tx].msg, Own(k, tx)) in c'.finalized
    {
      MessagesContain(ev.finalized, k.locals[tx].msg);
      ObservedExactlyWithin(ev.view.finalized, Observed(k.locals[tx].msg, Own(k, tx)));
    }
  }

  lemma {:induction false} EachIsAccounted(v: View, ev: Event, adopted: seq<Inscription>, o: Observed)
    requires Accounts(v, ev, adopted)
    ensures o in Observe(v.finalized) ==> o in Observe(ev.view.finalized)
    ensures o in Observe(v.history) ==>
      o.msg in Messages(ev.finalized) || o in Observe(ev.orphaned) || o in Observe(ev.view.history)
    ensures o in Observe(adopted) ==> o in Observe(ev.view.history)
    ensures o in Observe(ev.view.history) ==> o in Observe(adopted) || (ev.orphaned == [] && o in Observe(v.history))
  {
    ObservedExactlyWithin(v.finalized, o);
    ObservedExactlyWithin(ev.view.finalized, o);
    ObservedExactlyWithin(v.history, o);
    ObservedExactlyWithin(ev.orphaned, o);
    ObservedExactlyWithin(ev.view.history, o);
    ObservedExactlyWithin(adopted, o);
    MessagesContain(ev.finalized, o.msg);
  }

  /** The same for an event that accounts for the change of the history: after its status
      update the statuses are true exactly when none of our orphaned writes returns
      unnoticed. */
  lemma {:induction false} EventKeepsStatusesTrueExactlyWhenNoticed(k: Tracking, v: View, ev: Event,
                                                                    adopted: seq<Inscription>)
    requires ValidTracking(k) && StatusesTrue(k, ChannelAt(v)) && Accounts(v, ev, adopted)
    requires NamesPayloads(k, ev.finalized) && UnknownUnlessPublished(k, ChannelAt(ev.view))
    requires UpdateWriteStatuses(k, Messages(ev.finalized), Observe(ev.orphaned), Observe(adopted)).Some?
    ensures var msgs, os, as_ := Messages(ev.finalized), Observe(ev.orphaned), Observe(adopted);
      StatusesTrue(UpdateWriteStatuses(k, msgs, os, as_).value, ChannelAt(ev.view))
      <==> forall tx :: !ReturnsUnnoticed(k, msgs, os, as_, ChannelAt(ev.view), tx)
  {
    AccountsReports(k, v, ev, adopted);
    StatusesStayTrueExactlyWhenNoticed(k, ChannelAt(v), Messages(ev.finalized), Observe(ev.orphaned), Observe(adopted),
                                       ChannelAt(ev.view));
  }

  /** From true statuses, an extension leaves a write displaced that it finalizes. */
  ghost predicate StaysDisplaced(k: Tracking, v: View, ev: Event, tx: TxId)
  {
    && ValidTracking(k) && StatusesTrue(k, ChannelAt(v)) && Extends(v, ev) && ev.orphaned == []
    && NamesPayloads(k, ev.finalized) && UnknownUnlessPublished(k, ChannelAt(ev.view))
    && var k' := UpdateWriteStatuses(k, Messages(ev.finalized), [], Observe(ev.adopted));
    && k'.Some? && tx in k'.value.row && k'.value.row[tx].status == Displaced
    && tx in k.locals && Seen(ChannelAt(ev.view).finalized, Own(k, tx))
  }

  /** An orphaned write that a backfill finalizes under another message stays displaced:
      finalization looks for the recorded message only. */
  lemma {:induction false} BackfilledWriteCanStayDisplaced()
    ensures exists k: Tracking, v: View, ev: Event, tx: TxId :: StaysDisplaced(k, v, ev, tx)
  {
    var i := Inscription(8, Some([Write(10, 1)]));
    var row := Row(Displaced, Some(Displacement(0, Orphaned, Write(10, 1))), false);
    var k := Tracking([10], map[10 := row], map[10 := Publication(7, 1)], 1);
    var v, ev := View([], []), Event([], [], [i], None, true, View([i], []));
    OrphanIsTrue(k, row);
    FinalizedUnderAnother(k, i);
    assert Observe([]) == [];
    assert StaysDisplaced(k, v, ev, 10);
  }

  lemma {:induction false} OrphanIsTrue(k: Tracking, row: Row)
    requires row == Row(Displaced, Some(Displacement(0, Orphaned, Write(10, 1))), false)
    requires k == Tracking([10], map[10 := row], map[10 := Publication(7, 1)], 1)
    ensures ValidTracking(k) && StatusesTrue(k, ChannelAt(View([], []))) && forall c :: UnknownUnlessPublished(k, c)
  {
    assert ValidRow(k, 10) && k.order[0] == 10;
    assert Observe([]) == [];
    assert TrueRow(k, ChannelAt(View([], [])), 10);
  }

  lemma {:induction false} FinalizedUnderAnother(k: Tracking, i: Inscription)
    requires 10 in k.row && 10 in k.locals && k.locals[10] == Publication(7, 1)
    requires i == Inscription(8, Some([Write(10, 1)]))
    ensures var k' := FinalizeAll(k, Messages([i])); 10 in k'.row && k'.row[10] == k.row[10]
    ensures Seen(Observe([i]), Own(k, 10))
  {
    assert Messages([i]) == [8] + Messages([]);
    RowAfterFinalizing(k, Messages([i]), 10);
    ObservedExactlyWithin([i], Observed(8, Write(10, 1)));
    assert i in [i];
    assert Within([i], Observed(8, Write(10, 1)));
  }
}
