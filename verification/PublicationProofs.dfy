/** Publication and its recovery after a crash keep the invariant. */
module PublicationProofs {
  import opened Wrappers
  import opened SqlHistory
  import opened WriteStatuses
  import opened Commits
  import opened Participant
  import opened QueueLemmas
  import opened Invariant

  /** The parts of the invariant that do not depend on the running process. */
  ghost predicate StoreInv(cfg: Config, s: System)
  {
    && ValidTracking(s.store.control.tracking)
    && InOrder(s.committed, s.store.control.tracking.order, s.store.queue)
    && NonEmptyBatches(s.store.control.checkpoint.history)
    && WithinLimits(cfg, s.store.queue)
  }

  ghost function Accepted(v: View, msg: MsgId, ws: seq<Write>): View
  {
    View(v.finalized, v.history + [Inscription(msg, Some(ws))])
  }

  lemma {:induction false} QueueIsDistinct(committed: seq<Write>, order: seq<TxId>, queue: seq<Queued>)
    requires InOrder(committed, order, queue)
    ensures DistinctIds(QueuedWrites(queue))
  {
  }

  /** Rows for the batch extend the prefix of committed writes. */
  lemma {:induction false} BatchExtendsOrder(committed: seq<Write>, order: seq<TxId>, queue: seq<Queued>, n: nat)
    requires InOrder(committed, order, queue) && n <= |queue| && |order| == |committed| - |queue|
    ensures InOrder(committed, order + Ids(QueuedWrites(queue)[..n]), queue)
  {
    var ws := QueuedWrites(queue);
    IdsAt(committed);
    IdsAt(ws[..n]);
  }

  lemma {:induction false} WritesOfAccepted(v: View, msg: MsgId, ws: seq<Write>)
    ensures Writes(Accepted(v, msg, ws).history) == Writes(v.history) + ws
    ensures ChannelIds(Accepted(v, msg, ws)) == ChannelIds(v) + Ids(ws)
  {
    WritesConcat(v.history, [Inscription(msg, Some(ws))]);
    WritesOne(Inscription(msg, Some(ws)));
    var f, h := Writes(v.finalized), Writes(v.history);
    assert f + (h + ws) == (f + h) + ws;
    IdsConcat(f + h, ws);
  }

  /** The rows of the batch. */
  lemma {:induction false} SavedRows(s: System, n: nat, msg: MsgId)
    requires ValidTracking(s.store.control.tracking)
    requires InOrder(s.committed, s.store.control.tracking.order, s.store.queue)
    requires AllUnpublished(s.store) && !s.store.control.rebuild && n <= |s.store.queue|
    ensures DistinctIds(QueuedWrites(s.store.queue)[..n])
    ensures var k' := PublishAll(s.store.control.tracking, msg, QueuedWrites(s.store.queue)[..n]);
      && ValidTracking(k') && InOrder(s.committed, k'.order, s.store.queue)
      && |k'.order| == |s.committed| - |s.store.queue| + n
      && (forall w :: w in QueuedWrites(s.store.queue)[..n] ==> w.tx in k'.row && k'.row[w.tx].status == Live)
  {
    var k, ws := s.store.control.tracking, QueuedWrites(s.store.queue);
    QueueIsDistinct(s.committed, k.order, s.store.queue);
    NoRowsInQueue(s);
    forall w | w in ws[..n]
      ensures w.tx !in k.row
    {
      assert w in ws && Unpublished(s.store, w);
    }
    PublishingIsValid(k, msg, ws[..n]);
    PublishingAppendsRows(k, msg, ws[..n]);
    BatchExtendsOrder(s.committed, k.order, s.store.queue, n);
    IdsContain(ws[..n]);
    IdsAt(ws[..n]);
  }

  /** Saving a publication, for the first time or again, records its message. */
  lemma {:induction false} BatchIsCarried(k: Tracking, msg: MsgId, ws: seq<Write>)
    requires DistinctIds(ws) && forall w :: w in ws && w.tx in k.locals ==> k.locals[w.tx].content == w.content
    ensures CarriedBy(PublishAll(k, msg, ws), msg, ws)
  {
    PublishingRecordsBatch(k, msg, ws);
    forall w | w in ws
      ensures w.tx in PublishAll(k, msg, ws).locals
      ensures PublishAll(k, msg, ws).locals[w.tx] == Publication(msg, w.content)
    {
      assert PublishedAs(k, PublishAll(k, msg, ws), msg, w);
    }
  }

  lemma {:induction false} NewBatchIsCarried(st: Store, n: nat, msg: MsgId)
    requires AllUnpublished(st) && n <= |st.queue| && DistinctIds(QueuedWrites(st.queue))
    ensures CarriedBy(PublishAll(st.control.tracking, msg, QueuedWrites(st.queue)[..n]), msg,
                      QueuedWrites(st.queue)[..n])
  {
    var ws := QueuedWrites(st.queue);
    forall w | w in ws[..n] ensures w.tx !in st.control.tracking.locals {
      assert w in ws && Unpublished(st, w);
    }
    BatchIsCarried(st.control.tracking, msg, ws[..n]);
  }

  /** The channel did not know the batch. */
  lemma {:induction false} BatchIsNew(st: Store, n: nat)
    requires AllUnpublished(st) && n <= |st.queue|
    ensures forall w :: w in QueuedWrites(st.queue)[..n] ==> w.tx !in Ids(Writes(st.control.checkpoint.history))
  {
    var v, ws := st.control.checkpoint, QueuedWrites(st.queue);
    IdsConcat(Writes(v.finalized), Writes(v.history));
    forall w | w in ws[..n]
      ensures w.tx !in Ids(Writes(v.history))
    {
      assert w in ws && Unpublished(st, w);
    }
  }

  /** After the first transaction of `complete_batch`. */
  lemma {:induction false} SavingPublishesPrefix(e: Engine, cfg: Config, s: System, n: nat, msg: MsgId)
    returns (s': System)
    requires StoreInv(cfg, s) && AllUnpublished(s.store) && !s.store.control.rebuild && s.interrupted.None?
    requires 0 < n <= |s.store.queue|
    ensures s' == s.(store := Do(e, s.store,
              SavePublication(Accepted(s.store.control.checkpoint, msg, QueuedWrites(s.store.queue)[..n]), msg,
                              s.store.queue[..n])))
    ensures StoreInv(cfg, s') && PublishedPrefix(s', n, msg)
  {
    var st, k, v := s.store, s.store.control.tracking, s.store.control.checkpoint;
    var batch := QueuedWrites(st.queue)[..n];
    QueuedWritesTake(st.queue, n);
    var v' := Accepted(v, msg, batch);
    s' := s.(store := Do(e, st, SavePublication(v', msg, st.queue[..n])));
    QueueIsDistinct(s.committed, k.order, st.queue);
    SavedRows(s, n, msg);
    NewBatchIsCarried(st, n, msg);
    BatchIsNew(st, n);
    WritesOfAccepted(v, msg, batch);
    PrefixLeavesRestUnpublished(st, s'.store, n, msg);
    assert v'.history[..|v'.history| - 1] == v.history;
  }

  lemma {:induction false} PrefixLeavesRestUnpublished(st: Store, st': Store, n: nat, msg: MsgId)
    requires AllUnpublished(st) && DistinctIds(QueuedWrites(st.queue)) && !st.control.rebuild && n <= |st.queue|
    requires st'.control.tracking == PublishAll(st.control.tracking, msg, QueuedWrites(st.queue)[..n])
    requires st'.control.rebuild == st.control.rebuild
    requires ChannelIds(st'.control.checkpoint) == ChannelIds(st.control.checkpoint) + Ids(QueuedWrites(st.queue)[..n])
    ensures forall w :: w in QueuedWrites(st.queue)[n..] ==> Unpublished(st', w)
  {
    var ws := QueuedWrites(st.queue);
    forall w | w in ws[n..] ensures Unpublished(st', w) {
      var i :| n <= i < |ws| && ws[i] == w;
      assert w in ws && Unpublished(st, w);
      IdsContain(ws[..n]);
      assert forall x :: x in ws[..n] ==> x.tx != w.tx;
      PublishingAddsOnlyTheBatch(st.control.tracking, msg, ws[..n], w.tx);
    }
  }

  lemma {:induction false} RestStaysUnpublished(st: Store, n: nat, msg: MsgId, k: Tracking)
    requires DistinctIds(QueuedWrites(st.queue)) && n <= |st.queue| && !st.control.rebuild
    requires k == PublishAll(st.control.tracking, msg, QueuedWrites(st.queue)[..n])
    requires forall w :: w in QueuedWrites(st.queue)[n..] ==> Unpublished(st, w)
    ensures forall w :: w in QueuedWrites(st.queue)[n..] ==> Unpublished(WithTracking(st, k), w)
  {
    var ws := QueuedWrites(st.queue);
    IdsContain(ws[..n]);
    forall w | w in ws[n..] ensures Unpublished(WithTracking(st, k), w) {
      var i :| n <= i < |ws| && ws[i] == w;
      assert Unpublished(st, w);
      assert forall x :: x in ws[..n] ==> x.tx != w.tx;
      PublishingAddsOnlyTheBatch(st.control.tracking, msg, ws[..n], w.tx);
    }
  }

  lemma {:induction false} Republished(k: Tracking, msg: MsgId, ws: seq<Write>)
    requires ValidTracking(k) && DistinctIds(ws) && CarriedBy(k, msg, ws)
    requires forall w :: w in ws ==> w.tx in k.row && k.row[w.tx].status == Live
    ensures var k' := PublishAll(k, msg, ws);
      && ValidTracking(k') && k'.order == k.order && CarriedBy(k', msg, ws)
      && forall w :: w in ws ==> w.tx in k'.row && k'.row[w.tx].status == Live
  {
    PublishingIsValid(k, msg, ws);
    PublishingAgainAddsNoRow(k, msg, ws);
    BatchIsCarried(k, msg, ws);
    IdsContain(ws);
  }

  /** Repeating the first transaction changes nothing that matters. */
  lemma {:induction false} SavingAgain(e: Engine, cfg: Config, s: System, n: nat, msg: MsgId) returns (s': System)
    requires StoreInv(cfg, s) && PublishedPrefix(s, n, msg)
    ensures s' == s.(store := Do(e, s.store, SavePublication(s.store.control.checkpoint, msg, s.store.queue[..n])))
    ensures StoreInv(cfg, s') && PublishedPrefix(s', n, msg)
  {
    var st, k, ws := s.store, s.store.control.tracking, QueuedWrites(s.store.queue);
    QueuedWritesTake(st.queue, n);
    var k' := PublishAll(k, msg, ws[..n]);
    s' := s.(store := WithTracking(st, k'));
    QueueIsDistinct(s.committed, k.order, st.queue);
    Republished(k, msg, ws[..n]);
    RestStaysUnpublished(st, n, msg, k');
  }

  /** Removing the batch leaves the rest of the queue. */
  lemma {:induction false} ClearedQueue(committed: seq<Write>, order: seq<TxId>, cfg: Config, queue: seq<Queued>,
                                        n: nat)
    requires InOrder(committed, order, queue) && n <= |queue| && |order| == |committed| - |queue| + n
    requires WithinLimits(cfg, queue) && QueuedWrites(queue[n..]) == QueuedWrites(queue)[n..]
    ensures InOrder(committed, order, queue[n..]) && WithinLimits(cfg, queue[n..])
  {
    assert queue == queue[..n] + queue[n..];
    QueueBytesConcat(queue[..n], queue[n..]);
  }

  /** After the second transaction of `complete_batch`. */
  lemma {:induction false} ClearingEndsOverlap(e: Engine, cfg: Config, s: System, n: nat, msg: MsgId)
    returns (s': System)
    requires StoreInv(cfg, s) && PublishedPrefix(s, n, msg)
    ensures s' == s.(store := Do(e, s.store, ClearQueue(s.store.queue[..n])))
    ensures StoreInv(cfg, s') && AllUnpublished(s'.store)
  {
    var st, k := s.store, s.store.control.tracking;
    var ws := QueuedWrites(st.queue);
    s' := s.(store := Do(e, st, ClearQueue(st.queue[..n])));
    QueueIsDistinct(s.committed, k.order, st.queue);
    RemovePrefix(st.queue, n);
    assert s'.store.queue == st.queue[n..];
    QueuedWritesTake(st.queue, n);
    ClearedQueue(s.committed, k.order, cfg, st.queue, n);
    forall w | w in ws[n..] ensures Unpublished(s'.store, w) {
      assert w in ws && Unpublished(st, w);
    }
  }

  lemma {:induction false} RunCompleteBatch(e: Engine, st: Store, view: View, msg: MsgId, batch: seq<Queued>)
    ensures var cs := CompleteBatch(view, msg, batch); var saved := Do(e, st, SavePublication(view, msg, batch));
      && |cs| == 2
      && Run(e, st, cs[..0]) == st
      && Run(e, st, cs[..1]) == saved
      && Run(e, st, cs[..2]) == Do(e, saved, ClearQueue(batch))
  {
    var cs := CompleteBatch(view, msg, batch);
    RunNext(e, st, cs, 0);
    RunNext(e, st, cs, 1);
    assert cs[..0] == [];
  }

  /** Where `complete_batch` may start: the sequencer has just accepted the batch,
      or the first transaction committed before. */
  ghost predicate BatchStarts(s: System, view: View, n: nat, msg: MsgId)
  {
    && 0 < n <= |s.store.queue| && !s.store.control.rebuild && s.interrupted.None?
    && (|| (view == s.store.control.checkpoint && PublishedPrefix(s, n, msg))
        || (&& view == Accepted(s.store.control.checkpoint, msg, QueuedWrites(s.store.queue)[..n])
            && AllUnpublished(s.store)))
  }

  /** The rows that the batch's writes already have are live. */
  lemma {:induction false} BatchIsPublishable(s: System, view: View, n: nat, msg: MsgId)
    requires BatchStarts(s, view, n, msg)
    ensures Publishable(s.store.control.tracking, QueuedWrites(s.store.queue)[..n])
  {
    var ws := QueuedWrites(s.store.queue);
    forall w | w in ws[..n] && w.tx in s.store.control.tracking.row
      ensures s.store.control.tracking.row[w.tx].status == Live
    {
      assert w in ws;
      assert AllUnpublished(s.store) ==> Unpublished(s.store, w);
    }
  }

  lemma {:induction false} SavingKeepsStore(e: Engine, cfg: Config, s: System, view: View, n: nat, msg: MsgId)
    returns (s': System)
    requires StoreInv(cfg, s) && BatchStarts(s, view, n, msg)
    ensures s' == s.(store := Do(e, s.store, SavePublication(view, msg, s.store.queue[..n])))
    ensures StoreInv(cfg, s') && PublishedPrefix(s', n, msg)
  {
    if view == s.store.control.checkpoint && PublishedPrefix(s, n, msg) {
      s' := SavingAgain(e, cfg, s, n, msg);
    } else {
      s' := SavingPublishesPrefix(e, cfg, s, n, msg);
    }
  }

  lemma {:induction false} CompletingKeepsStore(e: Engine, cfg: Config, s: System, view: View, n: nat, msg: MsgId)
    returns (s': System)
    requires StoreInv(cfg, s) && BatchStarts(s, view, n, msg)
    ensures s' == s.(store := Do(e, Do(e, s.store, SavePublication(view, msg, s.store.queue[..n])),
                                 ClearQueue(s.store.queue[..n])))
    ensures StoreInv(cfg, s') && AllUnpublished(s'.store)
  {
    var s1 := SavingKeepsStore(e, cfg, s, view, n, msg);
    s' := ClearingEndsOverlap(e, cfg, s1, n, msg);
  }

  lemma {:induction false} PendingBatch(cfg: Config, s: System) returns (n: nat)
    requires Inv(cfg, s) && s.process.Up? && s.process.publish.CheckpointPending?
    ensures BatchStarts(s, s.process.publish.view, n, s.process.publish.msg)
    ensures s.process.publish.batch == s.store.queue[..n]
  {
    if Overlapping(s) {
      var m: nat, msg' :| PublishedPrefix(s, m, msg')
        && s.process.publish == CheckpointPending(s.store.queue[..m], msg', s.store.control.checkpoint);
      n := m;
    } else {
      n :| UnsavedPublication(s, n);
      QueuedWritesTake(s.store.queue, n);
    }
  }

  /** Every outcome of `persist_publish_checkpoint` keeps the invariant. */
  lemma {:induction false} PersistKeepsInv(e: Engine, cfg: Config, s: System, k: nat)
    requires Inv(cfg, s) && Enabled(e, cfg, s, PersistPublication(k))
    ensures Inv(cfg, Step(e, s, PersistPublication(k)))
  {
    var CheckpointPending(batch, msg, view) := s.process.publish;
    var n := PendingBatch(cfg, s);
    RunCompleteBatch(e, s.store, view, msg, batch);
    var s' := Step(e, s, PersistPublication(k));
    if k == 1 {
      var s1 := SavingKeepsStore(e, cfg, s, view, n, msg);
      assert s' == s1;
      assert Overlapping(s');
    } else if k == 2 {
      var s1 := CompletingKeepsStore(e, cfg, s, view, n, msg);
      assert s' == s1.(process := s'.process);
    }
  }

  // ---------------------------------------------------------------------------
  // Recovery

  /** Unpublished writes match no saved publication. */
  lemma {:induction false} NothingToRecover(view: View, history: seq<Inscription>, queue: seq<Queued>)
    requires NonEmptyBatches(history)
    requires queue != [] ==> QueuedWrites(queue)[0].tx !in Ids(Writes(history))
    ensures RecoverCommits(view, history, queue) == []
    decreases |history|
  {
    if history != [] {
      var i := history[0];
      IdsConcat(BatchWrites(i), Writes(history[1..]));
      assert i in history;
      if i.batch.Some? {
        IdsContain(i.batch.value);
        assert i.batch.value[0] in i.batch.value;
      }
      assert forall j :: j in history[1..] ==> j in history;
      NothingToRecover(view, history[1..], queue);
    }
  }

  /** Recovery finds exactly the published prefix, even with newer writes behind
      it in the queue. */
  lemma {:induction false} RecoveryFindsPrefix(view: View, history: seq<Inscription>, queue: seq<Queued>, n: nat,
                                               msg: MsgId)
    requires NonEmptyBatches(history) && 0 < n <= |queue|
    requires LastIs(history, msg, QueuedWrites(queue)[..n])
    requires QueuedWrites(queue)[0].tx !in Ids(Writes(history[..|history| - 1]))
    ensures RecoverCommits(view, history, queue) == CompleteBatch(view, msg, queue[..n])
    decreases |history|
  {
    var i := history[0];
    assert i in history;
    if |history| == 1 {
      assert QueuedWrites(queue)[..n] <= QueuedWrites(queue);
    } else {
      var init := history[..|history| - 1];
      assert init[0] == i && init[1..] == history[1..][..|history[1..]| - 1];
      IdsConcat(BatchWrites(i), Writes(init[1..]));
      if i.batch.Some? {
        IdsContain(i.batch.value);
        assert i.batch.value[0] in i.batch.value;
      }
      assert forall j :: j in history[1..] ==> j in history;
      RecoveryFindsPrefix(view, history[1..], queue, n, msg);
    }
  }

  /** Recovery has nothing to do, or completes the published prefix. */
  lemma {:induction false} RecoveryShape(cfg: Config, s: System) returns (n: nat, msg: MsgId)
    requires Inv(cfg, s) && s.process.Down?
    ensures var v := s.store.control.checkpoint; var cs := RecoverCommits(v, v.history, s.store.queue);
      || (cs == [] && AllUnpublished(s.store))
      || (BatchStarts(s, v, n, msg) && PublishedPrefix(s, n, msg) && cs == CompleteBatch(v, msg, s.store.queue[..n]))
  {
    var st, v := s.store, s.store.control.checkpoint;
    if Overlapping(s) {
      n, msg :| PublishedPrefix(s, n, msg);
      assert QueuedWrites(st.queue)[0] in QueuedWrites(st.queue)[..n];
      RecoveryFindsPrefix(v, v.history, st.queue, n, msg);
    } else {
      n, msg := 0, 0;
      if st.queue != [] {
        assert QueuedWrites(st.queue)[0] in QueuedWrites(st.queue);
        IdsConcat(Writes(v.finalized), Writes(v.history));
      }
      NothingToRecover(v, v.history, st.queue);
    }
  }

  lemma {:induction false} RestartKeepsInv(e: Engine, cfg: Config, s: System, k: nat)
    requires Inv(cfg, s) && Enabled(e, cfg, s, Restart(k))
    ensures Inv(cfg, Step(e, s, Restart(k)))
  {
    var v := s.store.control.checkpoint;
    var s' := Step(e, s, Restart(k));
    var n, msg := RecoveryShape(cfg, s);
    if RecoverCommits(v, v.history, s.store.queue) != [] {
      RunCompleteBatch(e, s.store, v, msg, s.store.queue[..n]);
      if k == 1 {
        var s1 := SavingKeepsStore(e, cfg, s, v, n, msg);
        assert s' == s1;
      } else if k == 2 {
        var s1 := CompletingKeepsStore(e, cfg, s, v, n, msg);
        assert s' == s1.(process := s'.process);
      }
    }
  }
}
