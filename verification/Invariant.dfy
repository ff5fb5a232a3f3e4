/** What every step of the participant keeps about its queue, its status rows and its
    publications, whatever the SQL engine does and whatever the databases hold. */
module Invariant {
  import opened Wrappers
  import opened SqlHistory
  import opened WriteStatuses
  import opened Commits
  import opened Participant
  import opened QueueLemmas

  /** Rows are a prefix and the queue a suffix of the committed writes, and
      together they cover them. */
  ghost predicate InOrder(committed: seq<Write>, order: seq<TxId>, queue: seq<Queued>)
  {
    && DistinctIds(committed)
    && |queue| <= |committed|
    && QueuedWrites(queue) == committed[|committed| - |queue|..]
    && |committed| - |queue| <= |order| <= |committed|
    && order == Ids(committed)[..|order|]
  }

  /** A queued write that no publication has taken: the channel does not know it,
      and it has a row only if a pending rebuild displaced it. */
  ghost predicate Unpublished(st: Store, w: Write)
  {
    && w.tx !in st.control.tracking.locals
    && w.tx !in ChannelIds(st.control.checkpoint)
    && (w.tx in st.control.tracking.row ==> st.control.rebuild && st.control.tracking.row[w.tx].status == Displaced)
  }

  /** The number of queued writes that have a row. */
  ghost function RowsInQueue(s: System): int
  {
    |s.store.control.tracking.order| - (|s.committed| - |s.store.queue|)
  }

  ghost predicate LastIs(history: seq<Inscription>, msg: MsgId, ws: seq<Write>)
  {
    history != [] && history[|history| - 1] == Inscription(msg, Some(ws))
  }

  /** Each of the writes is recorded as carried by the message, with its content. */
  ghost predicate CarriedBy(k: Tracking, msg: MsgId, ws: seq<Write>)
  {
    forall w :: w in ws ==> w.tx in k.locals && k.locals[w.tx] == Publication(msg, w.content)
  }

  /** Between the two transactions of `complete_batch`: the first `n` queued writes
      are also the last message of the saved history. */
  ghost predicate PublishedPrefix(s: System, n: nat, msg: MsgId)
  {
    var v, k := s.store.control.checkpoint, s.store.control.tracking;
    && 0 < n <= |s.store.queue| && RowsInQueue(s) == n
    && !s.store.control.rebuild && s.interrupted.None?
    && var ws := QueuedWrites(s.store.queue);
    && LastIs(v.history, msg, ws[..n])
    && (forall w :: w in ws[..n] ==> w.tx in k.row && k.row[w.tx].status == Live)
    && CarriedBy(k, msg, ws[..n])
    && (forall w :: w in ws[..n] ==> w.tx !in Ids(Writes(v.history[..|v.history| - 1])))
    && (forall w :: w in ws[n..] ==> Unpublished(s.store, w))
  }

  ghost predicate Overlapping(s: System)
  {
    exists n: nat, msg :: PublishedPrefix(s, n, msg)
      && (|| s.process.Down?
          || s.process.publish == CheckpointPending(s.store.queue[..n], msg, s.store.control.checkpoint))
  }

  ghost predicate QueueKnown(s: System)
  {
    Overlapping(s) || forall w :: w in QueuedWrites(s.store.queue) ==> Unpublished(s.store, w)
  }

  /** The publication that the sequencer accepted and no store has saved. */
  ghost predicate UnsavedPublication(s: System, n: nat)
  {
    var v := s.store.control.checkpoint;
    && s.process.Up? && s.process.publish.CheckpointPending?
    && 0 < n <= |s.store.queue|
    && s.process.publish.batch == s.store.queue[..n]
    && s.process.publish.view
         == View(v.finalized, v.history + [Inscription(s.process.publish.msg, Some(QueuedWrites(s.store.queue[..n])))])
    && forall w :: w in QueuedWrites(s.store.queue) ==> Unpublished(s.store, w)
  }

  ghost predicate ProcessAgrees(s: System)
  {
    s.process.Up? ==>
      && (s.interrupted.Some? ==> (s.process.retrying.Some? || !s.process.ready) && s.process.publish.Idle?)
      && (s.process.publish.CheckpointPending? ==>
            && !s.store.control.rebuild && s.interrupted.None?
            && (Overlapping(s) || exists n :: UnsavedPublication(s, n)))
  }

  ghost predicate WithinLimits(cfg: Config, queue: seq<Queued>)
  {
    |queue| <= cfg.maxPending && QueueBytes(queue) <= cfg.maxBytes
  }

  ghost predicate Inv(cfg: Config, s: System)
  {
    && ValidTracking(s.store.control.tracking)
    && InOrder(s.committed, s.store.control.tracking.order, s.store.queue)
    && NonEmptyBatches(s.store.control.checkpoint.history)
    && QueueKnown(s)
    && ProcessAgrees(s)
    && WithinLimits(cfg, s.store.queue)
  }

  /** An idle queue: nothing of it is published. */
  ghost predicate AllUnpublished(st: Store)
  {
    forall w :: w in QueuedWrites(st.queue) ==> Unpublished(st, w)
  }

  // ---------------------------------------------------------------------------
  // Consequences

  lemma {:induction false} InitiallyInv(e: Engine, cfg: Config)
    ensures Inv(cfg, Initial(e))
  {
    var s := Initial(e);
    assert QueuedWrites([]) == [] && QueueBytes([]) == 0;
    assert InOrder([], [], []) && ValidTracking(s.store.control.tracking);
    assert AllUnpublished(s.store);
  }

  /** A row belongs to a committed write. */
  lemma {:induction false} RowsAreCommitted(cfg: Config, s: System)
    requires Inv(cfg, s)
    ensures forall tx :: tx in s.store.control.tracking.row ==> tx in Ids(s.committed)
    ensures forall tx :: tx in s.store.control.tracking.locals ==> tx in Ids(s.committed)
  {
    var k := s.store.control.tracking;
    forall tx | tx in k.row ensures tx in Ids(s.committed) {
      assert tx in k.order;
    }
  }

  /** While nothing is published, saved and still queued, an idle process has only
      unpublished writes in its queue. */
  lemma {:induction false} IdleQueueIsUnpublished(cfg: Config, s: System)
    requires Inv(cfg, s) && s.process.Up? && s.process.publish.Idle?
    ensures forall w :: w in QueuedWrites(s.store.queue) ==> Unpublished(s.store, w)
  {
  }

  /** Unpublished writes have no row unless a rebuild is pending, so the rows are
      exactly those of the writes before the queue. */
  lemma {:induction false} NoRowsInQueue(s: System)
    requires ValidTracking(s.store.control.tracking)
    requires InOrder(s.committed, s.store.control.tracking.order, s.store.queue)
    requires !s.store.control.rebuild
    requires forall w :: w in QueuedWrites(s.store.queue) ==> Unpublished(s.store, w)
    ensures RowsInQueue(s) == 0
  {
    var C, k := s.committed, s.store.control.tracking;
    QueuedWritesAt(s.store.queue);
    IdsAt(C);
    if s.store.queue != [] {
      var i := |C| - |s.store.queue|;
      assert C[i] == QueuedWrites(s.store.queue)[0];
      assert C[i] in QueuedWrites(s.store.queue);
      assert forall j :: 0 <= j < |k.order| ==> C[j].tx == k.order[j] && k.order[j] in k.order;
    }
  }

  // ---------------------------------------------------------------------------
  // Local writes

  /** A participant between events. */
  lemma {:induction false} IdleIsInv(cfg: Config, st: Store, process: Process, interrupted: Option<Interrupted>,
                                     committed: seq<Write>)
    requires process.Up? && process.publish.Idle? && (interrupted.Some? ==> process.retrying.Some? || !process.ready)
    requires ValidTracking(st.control.tracking) && InOrder(committed, st.control.tracking.order, st.queue)
    requires NonEmptyBatches(st.control.checkpoint.history) && AllUnpublished(st) && WithinLimits(cfg, st.queue)
    ensures Inv(cfg, System(st, process, interrupted, committed))
  {
  }

  /** The new write is queued, and no one else knows it. */
  lemma {:induction false} QueuedUnpublished(e: Engine, st: Store, q: Queued)
    requires AllUnpublished(st) && Unpublished(st, q.write)
    ensures AllUnpublished(Do(e, st, CommitLocal(q)))
  {
    var st' := Do(e, st, CommitLocal(q));
    QueuedWritesConcat(st.queue, [q]);
    assert QueuedWrites([q]) == [q.write];
    forall x | x in QueuedWrites(st'.queue) ensures Unpublished(st', x) {
      assert x in QueuedWrites(st.queue) || x == q.write;
      assert Unpublished(st, x);
    }
  }

  lemma {:induction false} CommitLocalKeepsInv(e: Engine, cfg: Config, s: System, q: Queued)
    requires Inv(cfg, s) && ReadyToWrite(s) && CanCommitLocal(e, cfg, s, q)
    ensures Inv(cfg, s.(store := Do(e, s.store, CommitLocal(q)), committed := s.committed + [q.write]))
    ensures Unpublished(s.store, q.write)
  {
    IdleQueueIsUnpublished(cfg, s);
    RowsAreCommitted(cfg, s);
    QueuedUnpublished(e, s.store, q);
    AppendKeepsOrder(s.committed, s.store.control.tracking.order, s.store.queue, q);
    QueueBytesConcat(s.store.queue, [q]);
    assert QueueBytes([q]) == q.bytes + QueueBytes([]);
    IdleIsInv(cfg, Do(e, s.store, CommitLocal(q)), s.process, s.interrupted, s.committed + [q.write]);
  }

  lemma {:induction false} AppendKeepsOrder(committed: seq<Write>, order: seq<TxId>, queue: seq<Queued>, q: Queued)
    requires InOrder(committed, order, queue) && q.write.tx !in Ids(committed)
    ensures InOrder(committed + [q.write], order, queue + [q])
  {
    QueuedWritesConcat(queue, [q]);
    assert QueuedWrites([q]) == [q.write];
    IdsConcat(committed, [q.write]);
    IdsContain(committed);
    assert forall i :: 0 <= i < |committed| ==> committed[i] in committed;
  }

  lemma {:induction false} HandlingKeepsInv(e: Engine, cfg: Config, s: System, tx: TxId, id: nat)
    requires Inv(cfg, s)
    ensures Inv(cfg, s.(store := Do(e, s.store, HandleDisplacement(tx, id))))
  {
    var s' := s.(store := Do(e, s.store, HandleDisplacement(tx, id)));
    HandlingIsValid(s.store.control.tracking, tx, id);
    SameRowStatuses(s, s');
  }

  /** A change of the control store that keeps every status and publication. */
  lemma {:induction false} SameRowStatuses(s: System, s': System)
    requires s' == s.(store := s.store.(control := s.store.control.(tracking := s'.store.control.tracking)))
    requires ValidTracking(s'.store.control.tracking)
    requires s'.store.control.tracking.order == s.store.control.tracking.order
    requires s'.store.control.tracking.locals == s.store.control.tracking.locals
    requires s'.store.control.tracking.row.Keys == s.store.control.tracking.row.Keys
    requires forall tx :: tx in s.store.control.tracking.row ==>
               s'.store.control.tracking.row[tx].status == s.store.control.tracking.row[tx].status
    ensures QueueKnown(s) ==> QueueKnown(s')
    ensures ProcessAgrees(s) ==> ProcessAgrees(s')
  {
    assert forall w :: Unpublished(s.store, w) ==> Unpublished(s'.store, w);
    if Overlapping(s) {
      var n: nat, msg :| PublishedPrefix(s, n, msg)
        && (|| s.process.Down?
          || s.process.publish == CheckpointPending(s.store.queue[..n], msg, s.store.control.checkpoint));
      assert PublishedPrefix(s', n, msg);
    } else if exists n :: UnsavedPublication(s, n) {
      var n :| UnsavedPublication(s, n);
      assert UnsavedPublication(s', n);
    }
  }

  lemma {:induction false} AcceptKeepsInv(e: Engine, cfg: Config, s: System, n: nat, msg: MsgId)
    requires Inv(cfg, s) && Enabled(e, cfg, s, AcceptPublication(n, msg))
    ensures Inv(cfg, Step(e, s, AcceptPublication(n, msg)))
  {
    var s' := Step(e, s, AcceptPublication(n, msg));
    IdleQueueIsUnpublished(cfg, s);
    assert UnsavedPublication(s', n);
  }

  lemma {:induction false} CrashKeepsInv(e: Engine, cfg: Config, s: System)
    requires Inv(cfg, s) && s.process.Up?
    ensures Inv(cfg, Step(e, s, Crash))
  {
    var s' := Step(e, s, Crash);
    if Overlapping(s) {
      var n: nat, msg :| PublishedPrefix(s, n, msg)
        && s.process.publish == CheckpointPending(s.store.queue[..n], msg, s.store.control.checkpoint);
      assert PublishedPrefix(s', n, msg);
    }
  }

  lemma {:induction false} ReadyEventKeepsInv(e: Engine, cfg: Config, s: System)
    requires Inv(cfg, s) && Enabled(e, cfg, s, ReadyEvent)
    ensures Inv(cfg, Step(e, s, ReadyEvent))
  {
    IdleQueueIsUnpublished(cfg, s);
  }
}
