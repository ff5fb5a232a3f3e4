/** LIB and LIVE against the specification, in runs where every event finds the
    databases as it needs them: the agreement that every step keeps. */
module Agreement {
  import opened Wrappers
  import opened SqlHistory
  import opened WriteStatuses
  import opened Commits
  import opened EventEffects
  import opened Convergence
  import opened Resumption
  import opened Participant
  import opened QueueLemmas
  import opened Invariant
  import opened PublicationProofs
  import opened EventProofs
  import Healing

  /** LIB is the finalized history and what the interrupted attempt executed above it.
      Unless a rebuild is pending, LIVE is the surviving history, what the attempt
      executed above that, and the queue. */
  ghost predicate StoresAgree(e: Engine, st: Store, i: Interrupted)
  {
    var v := st.control.checkpoint;
    && st.lib == Replay(e, Base(e, v), i.lib)
    && (!st.control.rebuild ==>
          && st.live == Replay(e, Replay(e, Tip(e, v), i.live), QueuedWrites(st.queue))
          && (if st.queue == [] then |i.lib| <= |Writes(v.history)| + |i.live| + 1 else i.live == []))
  }

  ghost predicate QueueApplied(st: Store)
  {
    !st.control.rebuild ==> forall w :: w in QueuedWrites(st.queue) ==> IsApplied(st.live, w)
  }

  /** A batch that is saved and still queued has been applied below the queue too. */
  ghost predicate SavedBatchApplied(e: Engine, s: System)
  {
    forall n: nat, msg :: PublishedPrefix(s, n, msg) ==>
      forall w :: w in QueuedWrites(s.store.queue)[..n] ==> IsApplied(Tip(e, s.store.control.checkpoint), w)
  }

  ghost predicate Agree(e: Engine, s: System)
  {
    StoresAgree(e, s.store, Done(s)) && QueueApplied(s.store) && SavedBatchApplied(e, s)
  }

  /** Without an interrupted event this is the agreement itself. */
  lemma {:induction false} AgreementBetweenEvents(e: Engine, st: Store)
    ensures StoresAgree(e, st, Interrupted([], [])) <==>
      && st.lib == Base(e, st.control.checkpoint)
      && (!st.control.rebuild ==> st.live == Expected(e, st.control.checkpoint, st.queue))
  {
    var v := st.control.checkpoint;
    assert Replay(e, Base(e, v), []) == Base(e, v) && Replay(e, Tip(e, v), []) == Tip(e, v);
  }

  lemma {:induction false} NoPrefix(e: Engine, s: System)
    requires AllUnpublished(s.store)
    ensures SavedBatchApplied(e, s)
  {
    forall n: nat, msg
      ensures !PublishedPrefix(s, n, msg)
    {
      NotPublished(s, n, msg);
    }
  }

  lemma {:induction false} NotPublished(s: System, n: nat, msg: MsgId)
    requires AllUnpublished(s.store)
    ensures !PublishedPrefix(s, n, msg)
  {
    var ws := QueuedWrites(s.store.queue);
    if 0 < n <= |ws| {
      assert ws[0] in ws[..n] && ws[0] in ws;
      assert Unpublished(s.store, ws[0]);
    }
  }

  lemma {:induction false} InitiallyAgree(e: Engine)
    ensures Agree(e, Initial(e))
  {
    var s := Initial(e);
    assert QueuedWrites([]) == [];
    assert Base(e, View([], [])) == EmptyReplica(e) && Expected(e, View([], []), []) == EmptyReplica(e);
    AgreementBetweenEvents(e, s.store);
    NoPrefix(e, s);
  }

  // ---------------------------------------------------------------------------
  // Local writes and publication

  lemma {:induction false} CommitLocalAgrees(e: Engine, st: Store, q: Queued)
    requires StoresAgree(e, st, Interrupted([], [])) && QueueApplied(st) && !st.control.rebuild
    requires q.write.tx !in st.live.applied && e.run(st.live.data, q.write.content).Some?
    ensures var st' := Do(e, st, CommitLocal(q)); StoresAgree(e, st', Interrupted([], [])) && QueueApplied(st')
  {
    var st' := Do(e, st, CommitLocal(q));
    AgreementBetweenEvents(e, st);
    AgreementBetweenEvents(e, st');
    QueuedWritesConcat(st.queue, [q]);
    assert QueuedWrites([q]) == [q.write];
    ReplayOne(e, Tip(e, st.control.checkpoint), QueuedWrites(st.queue), q.write);
    forall x | x in QueuedWrites(st'.queue) ensures IsApplied(st'.live, x) {
      assert x in QueuedWrites(st.queue) ==> IsApplied(st.live, x);
    }
  }

  lemma {:induction false} CommitLocalKeepsAgreement(e: Engine, cfg: Config, s: System, q: Queued)
    requires Inv(cfg, s) && Agree(e, s) && ReadyToWrite(s) && CanCommitLocal(e, cfg, s, q)
    ensures Agree(e, s.(store := Do(e, s.store, CommitLocal(q)), committed := s.committed + [q.write]))
  {
    CommitLocalKeepsInv(e, cfg, s, q);
    IdleQueueIsUnpublished(cfg, s);
    CommitLocalAgrees(e, s.store, q);
    QueuedUnpublished(e, s.store, q);
    NoPrefix(e, s.(store := Do(e, s.store, CommitLocal(q)), committed := s.committed + [q.write]));
  }

  /** A change of the control store that keeps every status. */
  lemma {:induction false} HandlingKeepsAgreement(e: Engine, s: System, tx: TxId, id: nat)
    requires Agree(e, s)
    ensures Agree(e, s.(store := Do(e, s.store, HandleDisplacement(tx, id))))
  {
    var s' := s.(store := Do(e, s.store, HandleDisplacement(tx, id)));
    var k, k' := s.store.control.tracking, s'.store.control.tracking;
    assert forall w :: Unpublished(s'.store, w) ==> Unpublished(s.store, w);
    forall n: nat, msg | PublishedPrefix(s', n, msg)
      ensures PublishedPrefix(s, n, msg)
    {
    }
  }

  /** A prefix of applied writes may be replayed below and above the same point. */
  lemma {:induction false} PrefixReplayed(e: Engine, tip: Replica, ws: seq<Write>, n: nat)
    requires n <= |ws| && DistinctIds(ws)
    requires forall w :: w in ws ==> IsApplied(Replay(e, tip, ws), w)
    ensures var tip' := Replay(e, tip, ws[..n]);
      && Replay(e, tip', ws[n..]) == Replay(e, tip, ws)
      && (forall w :: w in ws[..n] ==> IsApplied(tip', w))
      && Replay(e, tip', ws) == Replay(e, tip, ws)
  {
    var tip' := Replay(e, tip, ws[..n]);
    assert ws == ws[..n] + ws[n..];
    ReplayConcat(e, tip, ws[..n], ws[n..]);
    forall w | w in ws[..n] ensures IsApplied(tip', w) {
      assert w in ws;
      assert forall x :: x in ws[n..] ==> x.tx != w.tx;
      NewMarkersAreReplayed(e, tip', ws[n..], w);
    }
    ReplayAppliedAgain(e, tip', ws[..n]);
    ReplayConcat(e, tip', ws[..n], ws[n..]);
  }

  /** The saved history replays the batch where the queue did. */
  lemma {:induction false} AcceptedTip(e: Engine, v: View, msg: MsgId, queue: seq<Queued>, n: nat)
    requires n <= |queue| && DistinctIds(QueuedWrites(queue))
    requires forall w :: w in QueuedWrites(queue) ==> IsApplied(Expected(e, v, queue), w)
    ensures var v' := Accepted(v, msg, QueuedWrites(queue)[..n]);
      && (forall w :: w in QueuedWrites(queue)[..n] ==> IsApplied(Tip(e, v'), w))
      && Expected(e, v', queue) == Expected(e, v, queue)
  {
    WritesOfAccepted(v, msg, QueuedWrites(queue)[..n]);
    ReplayConcat(e, Base(e, v), Writes(v.history), QueuedWrites(queue)[..n]);
    PrefixReplayed(e, Tip(e, v), QueuedWrites(queue), n);
  }

  /** The replicas already hold the batch. */
  lemma {:induction false} SavedReplicas(e: Engine, st: Store, n: nat, msg: MsgId)
    requires StoresAgree(e, st, Interrupted([], [])) && QueueApplied(st) && !st.control.rebuild && n <= |st.queue|
    requires DistinctIds(QueuedWrites(st.queue))
    ensures var v' := Accepted(st.control.checkpoint, msg, QueuedWrites(st.queue)[..n]);
      && st.lib == Base(e, v') && st.live == Expected(e, v', st.queue)
      && (forall w :: w in QueuedWrites(st.queue)[..n] ==> IsApplied(Tip(e, v'), w))
  {
    assert Replay(e, Tip(e, st.control.checkpoint), []) == Tip(e, st.control.checkpoint);
    AcceptedTip(e, st.control.checkpoint, msg, st.queue, n);
  }

  /** After the first transaction of `complete_batch`. */
  lemma {:induction false} SavingKeepsAgreement(e: Engine, cfg: Config, s: System, view: View, n: nat, msg: MsgId)
    returns (s': System)
    requires StoreInv(cfg, s) && Agree(e, s) && BatchStarts(s, view, n, msg)
    ensures s' == s.(store := Do(e, s.store, SavePublication(view, msg, s.store.queue[..n])))
    ensures Agree(e, s')
  {
    var st, v := s.store, s.store.control.checkpoint;
    s' := SavingKeepsStore(e, cfg, s, view, n, msg);
    QueueIsDistinct(s.committed, st.control.tracking.order, st.queue);
    if view == v && PublishedPrefix(s, n, msg) {
      OnePrefix(e, s', n, msg);
    } else {
      SavedReplicas(e, st, n, msg);
      AgreementBetweenEvents(e, s'.store);
      OnePrefix(e, s', n, msg);
    }
  }

  /** The rows tell how long the saved batch is. */
  lemma {:induction false} OnePrefix(e: Engine, s: System, n: nat, msg: MsgId)
    requires PublishedPrefix(s, n, msg)
    requires forall w :: w in QueuedWrites(s.store.queue)[..n] ==> IsApplied(Tip(e, s.store.control.checkpoint), w)
    ensures SavedBatchApplied(e, s)
  {
  }

  /** LIVE is expected above the saved batch without replaying it again. */
  lemma {:induction false} ClearedReplica(e: Engine, v: View, queue: seq<Queued>, n: nat)
    requires n <= |queue| && forall w :: w in QueuedWrites(queue)[..n] ==> IsApplied(Tip(e, v), w)
    ensures QueuedWrites(queue[n..]) == QueuedWrites(queue)[n..]
    ensures Expected(e, v, queue[n..]) == Expected(e, v, queue)
  {
    var ws := QueuedWrites(queue);
    QueuedWritesTake(queue, n);
    ReplayAppliedAgain(e, Tip(e, v), ws[..n]);
    assert ws == ws[..n] + ws[n..];
    ReplayConcat(e, Tip(e, v), ws[..n], ws[n..]);
  }

  /** After the second transaction of `complete_batch`. */
  lemma {:induction false} CompletingKeepsAgreement(e: Engine, cfg: Config, s: System, view: View, n: nat, msg: MsgId)
    returns (s': System)
    requires StoreInv(cfg, s) && Agree(e, s) && BatchStarts(s, view, n, msg)
    ensures s' == s.(store := Do(e, Do(e, s.store, SavePublication(view, msg, s.store.queue[..n])),
                                 ClearQueue(s.store.queue[..n])))
    ensures Agree(e, s') && AllUnpublished(s'.store)
  {
    var s1 := SavingKeepsAgreement(e, cfg, s, view, n, msg);
    var s1' := SavingKeepsStore(e, cfg, s, view, n, msg);
    s' := ClearingEndsOverlap(e, cfg, s1, n, msg);
    ClearingKeepsAgreement(e, s1, n, msg);
    NoPrefix(e, s');
  }

  lemma {:induction false} ClearingKeepsAgreement(e: Engine, s: System, n: nat, msg: MsgId)
    requires Agree(e, s) && PublishedPrefix(s, n, msg)
    requires InOrder(s.committed, s.store.control.tracking.order, s.store.queue)
    ensures var st := Do(e, s.store, ClearQueue(s.store.queue[..n]));
      StoresAgree(e, st, Interrupted([], [])) && QueueApplied(st)
  {
    var st := s.store;
    var st' := Do(e, st, ClearQueue(st.queue[..n]));
    QueueIsDistinct(s.committed, st.control.tracking.order, st.queue);
    RemovePrefix(st.queue, n);
    assert st'.queue == st.queue[n..];
    ClearedReplica(e, st.control.checkpoint, st.queue, n);
    AgreementBetweenEvents(e, st);
    AgreementBetweenEvents(e, st');
    assert forall w :: w in QueuedWrites(st.queue)[n..] ==> w in QueuedWrites(st.queue);
  }

  lemma {:induction false} PersistKeepsAgreement(e: Engine, cfg: Config, s: System, k: nat)
    requires Inv(cfg, s) && Agree(e, s) && Enabled(e, cfg, s, PersistPublication(k))
    ensures Agree(e, Step(e, s, PersistPublication(k)))
  {
    var CheckpointPending(batch, msg, view) := s.process.publish;
    var n := PendingBatch(cfg, s);
    RunCompleteBatch(e, s.store, view, msg, batch);
    if k == 1 {
      var s1 := SavingKeepsAgreement(e, cfg, s, view, n, msg);
    } else if k == 2 {
      var s2 := CompletingKeepsAgreement(e, cfg, s, view, n, msg);
      NoPrefix(e, Step(e, s, PersistPublication(k)));
    }
  }

  lemma {:induction false} RestartKeepsAgreement(e: Engine, cfg: Config, s: System, k: nat)
    requires Inv(cfg, s) && Agree(e, s) && Enabled(e, cfg, s, Restart(k))
    ensures Agree(e, Step(e, s, Restart(k)))
  {
    var v := s.store.control.checkpoint;
    var s' := Step(e, s, Restart(k));
    var n, msg := RecoveryShape(cfg, s);
    if RecoverCommits(v, v.history, s.store.queue) == [] {
      assert s'.store == s.store;
      NoPrefix(e, s');
    } else {
      RunCompleteBatch(e, s.store, v, msg, s.store.queue[..n]);
      if k == 1 {
        var s1 := SavingKeepsAgreement(e, cfg, s, v, n, msg);
      } else if k == 2 {
        var s2 := CompletingKeepsAgreement(e, cfg, s, v, n, msg);
        NoPrefix(e, s');
      }
    }
  }

  /** Steps that leave the store alone. */
  lemma {:induction false} SameStoreAgrees(e: Engine, s: System, s': System)
    requires Agree(e, s) && s'.store == s.store && s'.interrupted == s.interrupted && s'.committed == s.committed
    ensures Agree(e, s')
  {
    forall n: nat, msg | PublishedPrefix(s', n, msg)
      ensures PublishedPrefix(s, n, msg)
    {
    }
  }

  // ---------------------------------------------------------------------------
  // Direct application

  lemma {:induction false} NewWritesAreNotQueued(v: View, queue: seq<Queued>, ev: Event, w: Write)
    requires NotQueued(ev.finalized, queue) && NotQueued(ev.adopted, queue) && w in NewWrites(v, ev)
    ensures forall x :: x in QueuedWrites(queue) ==> x.tx != w.tx
  {
    var beyond := HistoryBeyond(ev.finalized, |v.history|);
    if w in Writes(beyond) {
      var n := |ev.finalized| - |beyond|;
      assert ev.finalized == ev.finalized[..n] + beyond;
      WritesConcat(ev.finalized[..n], beyond);
      assert w in Writes(ev.finalized);
      IdsContain(Writes(ev.finalized));
    } else {
      IdsContain(Writes(ev.adopted));
    }
  }

  /** A marker on LIVE that the queue did not add was there below the queue, so with the
      hypothesis on stale rejections no new write has an effect below the queue. */
  lemma {:induction false} QuietBelowQueue(e: Engine, st: Store, ev: Event)
    requires SequencerContract(st, ev) && ApplicationPlan(st, ev).ApplyChanges? && st.queue != []
    requires Extends(st.control.checkpoint, ev)
    requires st.live == Expected(e, st.control.checkpoint, st.queue) && StaleRejectionsHold(e, st, ev)
    ensures forall w :: w in NewWrites(st.control.checkpoint, ev) ==> Quiet(e, Tip(e, st.control.checkpoint), w)
    ensures forall w :: w in Writes(ev.adopted) ==> Quiet(e, st.live, w)
  {
    var v := st.control.checkpoint;
    ContractNotQueued(st, ev);
    forall w | w in NewWrites(v, ev) ensures Quiet(e, Tip(e, v), w) {
      if IsApplied(st.live, w) {
        NewWritesAreNotQueued(v, st.queue, ev, w);
        NewMarkersAreReplayed(e, Tip(e, v), QueuedWrites(st.queue), w);
      } else {
        WritesConcat(HistoryBeyond(ev.finalized, |v.history|), ev.adopted);
        var o := UnappliedIsRecorded(st, ev, NewInscriptions(v, ev), w);
      }
    }
    forall w | w in Writes(ev.adopted) ensures Quiet(e, st.live, w) {
      if !IsApplied(st.live, w) {
        var o := UnappliedIsRecorded(st, ev, ev.adopted, w);
      }
    }
  }

  /** The plan looked at every write of the event: one that LIVE has not applied has its
      rejection on record. */
  lemma {:induction false} UnappliedIsRecorded(st: Store, ev: Event, history: seq<Inscription>, w: Write)
    returns (o: Observed)
    requires ApplicationPlan(st, ev).ApplyChanges? && st.queue != [] && w in Writes(history) && !IsApplied(st.live, w)
    requires forall i :: i in history ==> i in ev.adopted || i in ev.finalized
    ensures o in Observe(history) && o.write == w && RejectionRecorded(st, o)
  {
    ObservedWrites(history);
    o :| o in Observe(history) && o.write == w;
    ObservedExactlyWithin(history, o);
    ObservedExactlyWithin(ev.adopted + ev.finalized, o);
    assert LiveProcessed(st, o);
  }

  /** Above queued writes a direct attempt has nothing left to execute on LIVE. */
  lemma {:induction false} StartsAboveQueue(e: Engine, st: Store, i: Interrupted, ev: Event)
    requires StoresAgree(e, st, i) && SequencerContract(st, ev) && ApplicationPlan(st, ev).ApplyChanges?
    requires st.queue != []
    requires Continues(st, i, ev) && RejectionsRepeat(e, st, i, ev) && StaleRejectionsHold(e, st, ev)
    requires Extends(st.control.checkpoint, ev) && Joins(st.control.checkpoint, ev)
    ensures At(e, st.control.checkpoint, ev, QueuedWrites(st.queue), PairOf(st), |i.lib|,
               |NewWrites(st.control.checkpoint, ev)|)
    ensures Repeats(e, st.control.checkpoint, ev, PairOf(st), |i.lib|, |NewWrites(st.control.checkpoint, ev)|)
  {
    var v := st.control.checkpoint;
    assert i.lib == Writes(ev.finalized)[..|i.lib|];
    assert Replay(e, Tip(e, v), []) == Tip(e, v);
    QuietBelowQueue(e, st, ev);
    QuietAbove(e, PairOf(st), v, st.queue, ev, |i.lib|);
    AdoptedRepeat(e, v, ev, PairOf(st), |i.lib|);
  }

  lemma {:induction false} StartsWithoutQueue(e: Engine, st: Store, i: Interrupted, ev: Event)
    requires StoresAgree(e, st, i) && ApplicationPlan(st, ev).ApplyChanges? && st.queue == []
    requires Continues(st, i, ev) && RejectionsRepeat(e, st, i, ev)
    ensures At(e, st.control.checkpoint, ev, QueuedWrites(st.queue), PairOf(st), |i.lib|, |i.live|)
    ensures Repeats(e, st.control.checkpoint, ev, PairOf(st), |i.lib|, |i.live|)
  {
    assert i.lib == Writes(ev.finalized)[..|i.lib|] && i.live == NewWrites(st.control.checkpoint, ev)[..|i.live|];
  }

  /** Where a direct attempt starts, resumed or not. */
  lemma {:induction false} DirectStarts(e: Engine, st: Store, i: Interrupted, ev: Event) returns (b: nat)
    requires StoresAgree(e, st, i) && SequencerContract(st, ev) && ApplicationPlan(st, ev).ApplyChanges?
    requires Continues(st, i, ev) && RejectionsRepeat(e, st, i, ev) && StaleRejectionsHold(e, st, ev)
    requires Extends(st.control.checkpoint, ev)
    ensures Joins(st.control.checkpoint, ev)
    ensures At(e, st.control.checkpoint, ev, QueuedWrites(st.queue), PairOf(st), |i.lib|, b)
    ensures Repeats(e, st.control.checkpoint, ev, PairOf(st), |i.lib|, b)
    ensures st.queue == [] ==> b == |i.live|
  {
    ExtensionJoins(e, st.control.checkpoint, ev);
    if st.queue == [] {
      b := |i.live|;
      StartsWithoutQueue(e, st, i, ev);
    } else {
      b := |NewWrites(st.control.checkpoint, ev)|;
      StartsAboveQueue(e, st, i, ev);
    }
  }

  lemma {:induction false} AdoptedRepeat(e: Engine, v: View, ev: Event, p: Pair, a: nat)
    requires Joins(v, ev) && Repeats(e, v, ev, p, a, 0) && forall w :: w in Writes(ev.adopted) ==> Quiet(e, p.live, w)
    ensures Repeats(e, v, ev, p, a, |NewWrites(v, ev)|)
  {
    var f, h, ns := |Writes(ev.finalized)|, Overlap(v, ev), NewWrites(v, ev);
    forall j: nat | f - h <= j < |ns|
      ensures LiveRepeats(e, v, ev, p, j)
    {
      assert ns[j] == AllWrites(ev)[h + j] == Writes(ev.adopted)[h + j - f];
    }
  }

  lemma {:induction false} BenignIsNoInstall(cs: seq<Commit>, queue: seq<Queued>)
    requires BenignFor(cs, queue)
    ensures NoInstall(cs)
  {
  }

  lemma {:induction false} DirectKeepsQueueApplied(e: Engine, st: Store, ev: Event, k: nat)
    requires QueueApplied(st) && !st.control.rebuild && k <= |DirectCommits(ev)|
    requires NotQueued(ev.adopted, st.queue)
    ensures var live := Run(e, st, DirectCommits(ev)[..k]).live;
      forall w :: w in QueuedWrites(st.queue) ==> IsApplied(live, w)
  {
    var cs := DirectCommits(ev)[..k];
    DirectBodyIsBenign(ev, st.queue);
    BenignIsNoInstall(DirectBody(ev), st.queue);
    assert forall c :: c in cs ==> c in DirectCommits(ev);
    EffectsOfRun(e, st, cs);
    EffectsKeep(e, PairOf(st), cs);
  }

  /** A direct attempt that stops is recorded exactly: what LIB and LIVE executed. */
  lemma {:induction false} DirectInterruptionAgrees(e: Engine, s: System, ev: Event, k: nat)
    requires Agree(e, s) && AllUnpublished(s.store) && ValidTracking(s.store.control.tracking)
    requires SequencerContract(s.store, ev) && ApplicationPlan(s.store, ev).ApplyChanges?
    requires Steady(e, s, AttemptEvent(ev, k)) && k < |DirectCommits(ev)|
    ensures var st := Run(e, s.store, DirectCommits(ev)[..k]);
      StoresAgree(e, st, Stopped(e, s, ev, k, st)) && QueueApplied(st)
  {
    var v := s.store.control.checkpoint;
    var st := Run(e, s.store, DirectCommits(ev)[..k]);
    var b := DirectStarts(e, s.store, Done(s), ev);
    var b' := DirectCut(e, PairOf(s.store), v, QueuedWrites(s.store.queue), ev, |Done(s).lib|, b, k);
    EffectsOfRun(e, s.store, DirectCommits(ev)[..k]);
    DirectStopped(e, s.store, ev, k);
    ContractNotQueued(s.store, ev);
    DirectKeepsQueueApplied(e, s.store, ev, k);
    if s.store.queue == [] {
      StoppedWithoutQueue(e, Done(s), PairOf(s.store), ev, |Executions(DirectCommits(ev)[..k])|, st, b');
    } else {
      StoppedWithQueue(e, Done(s), s.store, ev, |Executions(DirectCommits(ev)[..k])|, st, b, b');
    }
  }

  lemma {:induction false} StoppedWithoutQueue(e: Engine, i: Interrupted, p: Pair, ev: Event, m: nat, st: Store, b: nat)
    requires st.queue == [] && |i.lib| <= |Writes(ev.finalized)|
    requires Reached(e, st.control.checkpoint, ev, [], p, PairOf(st), |i.lib|, |i.live|, m, b)
    ensures StoresAgree(e, st, StoppedDirectly(e, st.control.checkpoint, ev, i, false, m, st.live))
  {
    var v := st.control.checkpoint;
    var fs, ns := Writes(ev.finalized), NewWrites(v, ev);
    var n := Later(|i.live|, LiveCount(|fs|, m) - Overlap(v, ev));
    assert Replay(e, Replay(e, Tip(e, v), ns[..b]), []) == st.live;
    assert Take(ns, b) == ns[..b];
    assert b == n || b == n + 1;
    assert st.live == Replay(e, Tip(e, v), LiveDone(e, Tip(e, v), ns, n, st.live));
  }

  lemma {:induction false} StoppedWithQueue(e: Engine, i: Interrupted, before: Store, ev: Event, m: nat, st: Store,
                                            b: nat, b': nat)
    requires before.queue != [] && st.queue == before.queue && st.control.checkpoint == before.control.checkpoint
    requires StoresAgree(e, before, i) && !before.control.rebuild
    requires At(e, before.control.checkpoint, ev, QueuedWrites(before.queue), PairOf(before), |i.lib|, b)
    requires Reached(e, before.control.checkpoint, ev, QueuedWrites(before.queue), PairOf(before), PairOf(st), |i.lib|,
                     b, m, b')
    ensures StoresAgree(e, st, StoppedDirectly(e, before.control.checkpoint, ev, i, true, m, st.live))
  {
  }

  lemma {:induction false} DirectPairAgrees(e: Engine, st: Store, i: Interrupted, ev: Event)
    requires StoresAgree(e, st, i) && SequencerContract(st, ev) && ApplicationPlan(st, ev).ApplyChanges?
    requires Continues(st, i, ev) && RejectionsRepeat(e, st, i, ev) && StaleRejectionsHold(e, st, ev)
    requires Extends(st.control.checkpoint, ev)
    ensures InAgreement(e, PairOf(Run(e, st, DirectCommits(ev))), ev.view, st.queue)
  {
    var b := DirectStarts(e, st, i, ev);
    DirectApplicationAgrees(e, PairOf(st), st.control.checkpoint, st.queue, ev, |i.lib|, b);
    EffectsOfRun(e, st, DirectCommits(ev));
  }

  lemma {:induction false} DirectCompletes(e: Engine, st: Store, ev: Event)
    requires ValidTracking(st.control.tracking) && AllUnpublished(st) && SequencerContract(st, ev)
    requires QueueApplied(st) && !st.control.rebuild
    ensures var st' := Run(e, st, DirectCommits(ev));
      st'.queue == st.queue && st'.control.checkpoint == ev.view && QueueApplied(st')
  {
    var cs := DirectCommits(ev);
    var mid := DirectResult(e, st, ev);
    ContractNotQueued(st, ev);
    assert cs[..|cs|] == cs;
    DirectKeepsQueueApplied(e, st, ev, |cs|);
  }

  /** A complete direct attempt restores agreement at the new position. */
  lemma {:induction false} DirectCompletionAgrees(e: Engine, s: System, ev: Event)
    requires Agree(e, s) && AllUnpublished(s.store) && ValidTracking(s.store.control.tracking)
    requires SequencerContract(s.store, ev) && ApplicationPlan(s.store, ev).ApplyChanges?
    requires Steady(e, s, AttemptEvent(ev, |DirectCommits(ev)|))
    ensures var st := Run(e, s.store, DirectCommits(ev)); StoresAgree(e, st, Interrupted([], [])) && QueueApplied(st)
  {
    DirectPairAgrees(e, s.store, Done(s), ev);
    DirectCompletes(e, s.store, ev);
    AgreementBetweenEvents(e, Run(e, s.store, DirectCommits(ev)));
  }

  // ---------------------------------------------------------------------------
  // Rebuild

  function LibWrites(cs: seq<Commit>): (ws: seq<Write>)
    ensures |ws| == CountLib(cs)
  {
    if cs == [] then [] else (if cs[0].RebuildLib? then [cs[0].w] else []) + LibWrites(cs[1..])
  }

  lemma {:induction false} LibWritesConcat(xs: seq<Commit>, ys: seq<Commit>)
    ensures LibWrites(xs + ys) == LibWrites(xs) + LibWrites(ys)
  {
    if xs == [] {
      assert xs + ys == ys;
    } else {
      assert (xs + ys)[1..] == xs[1..] + ys;
      LibWritesConcat(xs[1..], ys);
    }
  }

  lemma {:induction false} LibWritesNone(cs: seq<Commit>)
    requires forall c :: c in cs ==> !c.RebuildLib?
    ensures LibWrites(cs) == []
  {
    if cs != [] {
      assert cs[0] in cs;
      LibWritesNone(cs[1..]);
    }
  }

  lemma {:induction false} LibWritesOfBatch(msg: MsgId, ws: seq<Write>)
    ensures LibWrites(BatchCommits(LibOnly, msg, ws)) == ws
  {
    if ws != [] {
      var one := WriteCommits(LibOnly, msg, ws[0]);
      LibWritesConcat(one, BatchCommits(LibOnly, msg, ws[1..]));
      LibWritesOfBatch(msg, ws[1..]);
      assert one[1..] == [RecordLibRejection(msg, ws[0])];
      LibWritesNone(one[1..]);
    }
  }

  lemma {:induction false} LibWritesOfHistory(history: seq<Inscription>)
    ensures LibWrites(ApplyCommits(LibOnly, history)) == Writes(history)
  {
    if history != [] {
      var first := InscriptionCommits(LibOnly, history[0]);
      LibWritesConcat(first, ApplyCommits(LibOnly, history[1..]));
      LibWritesOfHistory(history[1..]);
      if history[0].batch.Some? {
        LibWritesOfBatch(history[0].msg, history[0].batch.value);
      } else {
        LibWritesNone(first);
      }
    }
  }

  predicate LibOrControl(c: Commit)
  {
    c.RebuildLib? || ControlOnly(c)
  }

  /** Such transactions replay their writes into LIB and leave LIVE alone. */
  lemma {:induction false} LibEffects(e: Engine, p: Pair, cs: seq<Commit>)
    requires forall c :: c in cs ==> LibOrControl(c)
    ensures Effects(e, p, cs) == Pair(Replay(e, p.lib, LibWrites(cs)), p.live)
    decreases |cs|
  {
    if cs != [] {
      assert cs[0] in cs;
      var p1 := Effect(e, p, cs[0]);
      LibEffects(e, p1, cs[1..]);
      if cs[0].RebuildLib? {
        assert LibWrites(cs) == [cs[0].w] + LibWrites(cs[1..]);
        assert LibWrites(cs)[1..] == LibWrites(cs[1..]);
      } else {
        assert LibWrites(cs) == LibWrites(cs[1..]);
      }
    }
  }

  lemma {:induction false} BodyLibWrites(ev: Event)
    ensures LibWrites(RebuildBody(ev)) == Writes(ev.finalized)
    ensures forall c :: c in RebuildBody(ev) ==> LibOrControl(c)
  {
    var libs := ApplyCommits(LibOnly, ev.finalized);
    LibWritesOfHistory(ev.finalized);
    LibOnlyCommits(ev.finalized);
    match HistoryFor(ev)
    case None =>
      StatusCommitsAreControl(ev, ev.adopted);
      LibWritesConcat(libs, StatusCommits(ev, ev.adopted));
      LibWritesNone(StatusCommits(ev, ev.adopted));
    case Some(history) =>
      StatusCommitsAreControl(ev, history);
      ReplayCommitsAreControl([], history);
      LibWritesConcat(libs, StatusCommits(ev, history));
      LibWritesConcat(libs + StatusCommits(ev, history), ReplayCommits([], history));
      LibWritesNone(StatusCommits(ev, history));
      LibWritesNone(ReplayCommits([], history));
  }

  lemma {:induction false} LibOnlyCommits(history: seq<Inscription>)
    ensures forall c :: c in ApplyCommits(LibOnly, history) ==> LibOrControl(c)
  {
    if history != [] {
      LibOnlyCommits(history[1..]);
      if history[0].batch.Some? {
        LibOnlyBatchCommits(history[0].msg, history[0].batch.value);
      }
    }
  }

  lemma {:induction false} LibOnlyBatchCommits(msg: MsgId, ws: seq<Write>)
    ensures forall c :: c in BatchCommits(LibOnly, msg, ws) ==> LibOrControl(c)
  {
    if ws != [] {
      LibOnlyBatchCommits(msg, ws[1..]);
    }
  }

  lemma {:induction false} BeforeInstallLibWrites(ev: Event, queue: seq<Queued>)
    ensures LibWrites(BeforeInstall(ev, queue)) == Writes(ev.finalized)
    ensures forall c :: c in BeforeInstall(ev, queue) ==> LibOrControl(c)
  {
    DisplaceCommitsAt(queue);
    assert forall c :: c in DisplaceAll(queue) ==> ControlOnly(c);
    LibWritesNone(DisplaceAll(queue));
    LibWritesConcat(DisplaceAll(queue), RebuildBody(ev));
    BodyLibWrites(ev);
  }

  /** Redelivered finalized writes that are quiet leave LIB where the longer attempt
      alone would. */
  lemma {:induction false} LibRedelivery(e: Engine, base: Replica, ws: seq<Write>, done: nat, again: nat)
    requires done <= |ws| && again <= |ws|
    requires forall w :: w in ws[..done] ==> Quiet(e, Replay(e, base, ws[..done]), w)
    ensures Replay(e, Replay(e, base, ws[..done]), ws[..again]) == Replay(e, base, ws[..Later(done, again)])
  {
    var mid := Replay(e, base, ws[..done]);
    if again <= done {
      assert forall w :: w in ws[..again] ==> w in ws[..done];
      ReplayIsQuietExactlyWhenWritesAre(e, mid, ws[..again]);
    } else {
      ReplayIsQuietExactlyWhenWritesAre(e, mid, ws[..done]);
      assert ws[..again] == ws[..done] + ws[done..again];
      ReplayConcat(e, mid, ws[..done], ws[done..again]);
      ReplayConcat(e, base, ws[..done], ws[done..again]);
    }
  }

  /** Before LIVE is replaced, `k` transactions have moved LIB by as many finalized
      writes as they contain, unless an earlier attempt had moved it further. */
  lemma {:induction false} LibProgress(e: Engine, st: Store, ev: Event, k: nat, done: seq<Write>)
    requires k <= |BeforeInstall(ev, st.queue)|
    requires done <= Writes(ev.finalized) && st.lib == Replay(e, Base(e, st.control.checkpoint), done)
    requires forall w :: w in done ==> Quiet(e, st.lib, w)
    ensures var cs := BeforeInstall(ev, st.queue)[..k];
      && CountLib(cs) <= |Writes(ev.finalized)|
      && Run(e, st, cs).lib
           == Replay(e, Base(e, st.control.checkpoint), Writes(ev.finalized)[..Later(|done|, CountLib(cs))])
  {
    var all := BeforeInstall(ev, st.queue);
    var cs := all[..k];
    BeforeInstallLibWrites(ev, st.queue);
    assert all == cs + all[k..];
    LibWritesConcat(cs, all[k..]);
    assert LibWrites(cs) == Writes(ev.finalized)[..CountLib(cs)];
    EffectsOfRun(e, st, cs);
    LibEffects(e, PairOf(st), cs);
    assert done == Writes(ev.finalized)[..|done|];
    LibRedelivery(e, Base(e, st.control.checkpoint), Writes(ev.finalized), |done|, CountLib(cs));
  }

  /** The same, wherever the attempt stops: replacing LIVE does not touch LIB. */
  lemma {:induction false} LibWhenStopped(e: Engine, st: Store, ev: Event, k: nat, done: seq<Write>)
    requires ApplicationPlan(st, ev).Rebuild? && k < |EventCommits(st, ev)|
    requires done <= Writes(ev.finalized) && st.lib == Replay(e, Base(e, st.control.checkpoint), done)
    requires forall w :: w in done ==> Quiet(e, st.lib, w)
    ensures var cs := EventCommits(st, ev)[..k];
      && CountLib(cs) <= |Writes(ev.finalized)|
      && Run(e, st, cs).lib
           == Replay(e, Base(e, st.control.checkpoint), Writes(ev.finalized)[..Later(|done|, CountLib(cs))])
  {
    var before, tail := BeforeInstall(ev, st.queue), RebuildTail(ev);
    RebuildCommitsInStages(st, ev);
    if k <= |before| {
      assert (before + tail)[..k] == before[..k];
      LibProgress(e, st, ev, k, done);
    } else {
      assert (before + tail)[..k] == before + [tail[0]];
      RunThenOne(e, st, before, tail[0]);
      CountLibConcat(before, [tail[0]]);
      CountLibNone([tail[0]]);
      assert before[..|before|] == before;
      LibProgress(e, st, ev, |before|, done);
    }
  }

  lemma {:induction false} RebuildInterruptionAgrees(e: Engine, cfg: Config, s: System, ev: Event, k: nat)
    requires Agree(e, s) && AttemptReady(cfg, s, ev) && ApplicationPlan(s.store, ev).Rebuild?
    requires Steady(e, s, AttemptEvent(ev, k)) && 0 < k < |EventCommits(s.store, ev)|
    ensures var st := Run(e, s.store, EventCommits(s.store, ev)[..k]);
      StoresAgree(e, st, Stopped(e, s, ev, k, st)) && QueueApplied(st)
  {
    RebuildStopped(e, cfg, s, ev, k);
    LibWhenStopped(e, s.store, ev, k, Done(s).lib);
  }

  /** With every finalized write applied, LIB stands at the new position. */
  lemma {:induction false} LibReachesNewBase(e: Engine, st: Store, ev: Event, done: seq<Write>)
    requires done <= Writes(ev.finalized) && st.lib == Replay(e, Base(e, st.control.checkpoint), done)
    requires forall w :: w in done ==> Quiet(e, st.lib, w)
    requires ev.view.finalized == st.control.checkpoint.finalized + ev.finalized
    ensures Run(e, st, BeforeInstall(ev, st.queue)).lib == Base(e, ev.view)
  {
    var before := BeforeInstall(ev, st.queue);
    assert before[..|before|] == before;
    LibProgress(e, st, ev, |before|, done);
    BeforeInstallLibWrites(ev, st.queue);
    assert Writes(ev.finalized)[..|Writes(ev.finalized)|] == Writes(ev.finalized);
    BaseAdvances(e, st.control.checkpoint, ev);
  }

  /** Without repeated ids, the first write that is executed again with effect leaves
      a marker that the history alone does not. */
  lemma {:induction false} LoudRepeatDiverges(e: Engine, base: Replica, ws: seq<Write>, n: nat, i: nat)
    requires DistinctIds(ws) && i < n <= |ws|
    requires forall w :: w in ws[..i] ==> Quiet(e, Replay(e, base, ws[..n]), w)
    requires !Quiet(e, Replay(e, base, ws[..n]), ws[i])
    ensures Replay(e, Replay(e, base, ws[..n]), ws) != Replay(e, base, ws)
  {
    var mid, w := Replay(e, base, ws[..n]), ws[i];
    assert ws == ws[..i] + ([w] + ws[i + 1..]);
    ReplayConcat(e, mid, ws[..i], [w] + ws[i + 1..]);
    ReplayIsQuietExactlyWhenWritesAre(e, mid, ws[..i]);
    assert ([w] + ws[i + 1..])[1..] == ws[i + 1..];
    MarkersPersist(e, ApplyWrite(e, mid, w), ws[i + 1..], w.tx);
    UnmarkedStays(e, base, ws, n, i);
  }

  lemma {:induction false} FirstLoud(e: Engine, r: Replica, ws: seq<Write>) returns (i: nat)
    requires exists w :: w in ws && !Quiet(e, r, w)
    ensures i < |ws| && !Quiet(e, r, ws[i]) && forall w :: w in ws[..i] ==> Quiet(e, r, w)
  {
    assert ws == [ws[0]] + ws[1..];
    if Quiet(e, r, ws[0]) {
      var j := FirstLoud(e, r, ws[1..]);
      i := j + 1;
      assert ws[..i] == [ws[0]] + ws[1..][..j];
    } else {
      i := 0;
    }
  }

  /** A rebuild brings LIB to the new base exactly when the finalized writes that it
      executes again are applied already or rejected again. */
  lemma {:induction false} RebuiltLibAgreesExactlyWhenItRepeats(e: Engine, st: Store, ev: Event, done: seq<Write>)
    requires done <= Writes(ev.finalized) && st.lib == Replay(e, Base(e, st.control.checkpoint), done)
    requires ev.view.finalized == st.control.checkpoint.finalized + ev.finalized && DistinctIds(Writes(ev.finalized))
    ensures Run(e, st, BeforeInstall(ev, st.queue)).lib == Base(e, ev.view) <==>
      forall w :: w in done ==> Quiet(e, st.lib, w)
  {
    if forall w :: w in done ==> Quiet(e, st.lib, w) {
      LibReachesNewBase(e, st, ev, done);
    } else {
      var i := FirstLoud(e, st.lib, done);
      var ws := Writes(ev.finalized);
      assert done == ws[..|done|] && done[..i] == ws[..i];
      LoudRepeatDiverges(e, Base(e, st.control.checkpoint), ws, |done|, i);
      BaseAdvances(e, st.control.checkpoint, ev);
      EffectsOfRun(e, st, BeforeInstall(ev, st.queue));
      BeforeInstallLibWrites(ev, st.queue);
      LibEffects(e, PairOf(st), BeforeInstall(ev, st.queue));
    }
  }

  /** A complete rebuild: LIVE is LIB with the surviving history on top, or the flag stays
      set. */
  lemma {:induction false} RebuiltAgrees(e: Engine, mid: Store, ev: Event)
    requires mid.lib == Base(e, ev.view) && mid.control.rebuild
    requires HistoryFor(ev).Some? ==> HistoryFor(ev).value == ev.view.history
    ensures var st := if HistoryFor(ev).None? then Do(e, mid, SaveCheckpoint(ev.view))
                      else Do(e, Do(e, mid, InstallRebuild(Writes(HistoryFor(ev).value))),
                              SaveRebuiltCheckpoint(ev.view));
      StoresAgree(e, st, Interrupted([], [])) && QueueApplied(st)
  {
    var st := if HistoryFor(ev).None? then Do(e, mid, SaveCheckpoint(ev.view))
              else Do(e, Do(e, mid, InstallRebuild(Writes(HistoryFor(ev).value))), SaveRebuiltCheckpoint(ev.view));
    AgreementBetweenEvents(e, st);
    assert QueuedWrites([]) == [];
    assert Expected(e, ev.view, []) == Tip(e, ev.view);
  }

  lemma {:induction false} RebuildCompletionAgrees(e: Engine, cfg: Config, s: System, ev: Event)
    requires Agree(e, s) && AttemptReady(cfg, s, ev) && ApplicationPlan(s.store, ev).Rebuild?
    requires Steady(e, s, AttemptEvent(ev, |EventCommits(s.store, ev)|))
    ensures var st := Run(e, s.store, EventCommits(s.store, ev));
      StoresAgree(e, st, Interrupted([], [])) && QueueApplied(st)
  {
    RebuildCommitsInStages(s.store, ev);
    RebuildResult(e, s.store, ev);
    LibReachesNewBase(e, s.store, ev, Done(s).lib);
    var mid := Run(e, s.store, BeforeInstall(ev, s.store.queue));
    assert mid.control.rebuild by {
      BeforeInstallDisplaces(e, cfg, s, ev);
    }
    RebuiltAgrees(e, mid, ev);
  }

  // ---------------------------------------------------------------------------
  // Every attempt

  lemma {:induction false} AttemptKeepsAgreement(e: Engine, cfg: Config, s: System, ev: Event, k: nat)
    requires Inv(cfg, s) && Agree(e, s) && Enabled(e, cfg, s, AttemptEvent(ev, k)) && Steady(e, s, AttemptEvent(ev, k))
    ensures Agree(e, Step(e, s, AttemptEvent(ev, k)))
  {
    var cs, s' := EventCommits(s.store, ev), Step(e, s, AttemptEvent(ev, k));
    AttemptStart(e, cfg, s, ev, k);
    AttemptKeepsInv(e, cfg, s, ev, k);
    IdleQueueIsUnpublished(cfg, s');
    NoPrefix(e, s');
    if k == |cs| {
      CompletedStep(e, s, ev, cs);
      if ApplicationPlan(s.store, ev).ApplyChanges? {
        DirectCompletionAgrees(e, s, ev);
      } else {
        RebuildCompletionAgrees(e, cfg, s, ev);
      }
    } else if k == 0 {
      assert cs[..0] == [];
    } else {
      InterruptedStep(e, s, ev, cs[..k]);
      if ApplicationPlan(s.store, ev).ApplyChanges? {
        DirectInterruptionAgrees(e, s, ev, k);
      } else {
        RebuildInterruptionAgrees(e, cfg, s, ev, k);
      }
    }
  }

  /** What an interrupted attempt leaves in a run, without queued writes, is what the
      healing by smaller pieces starts from. */
  lemma {:induction false} InterruptedIsAhead(e: Engine, s: System)
    requires Agree(e, s) && s.store.queue == [] && !s.store.control.rebuild && DistinctIds(Done(s).lib)
    requires forall w :: w in Done(s).lib ==> Quiet(e, s.store.lib, w)
    requires forall w :: w in Done(s).live ==> Quiet(e, s.store.live, w)
    ensures Healing.Ahead(e, PairOf(s.store), s.store.control.checkpoint, Done(s).lib, Done(s).live)
  {
    assert QueuedWrites([]) == [];
    assert Replay(e, s.store.live, []) == s.store.live;
  }

  /** Attempting the interrupted event again always continues it. */
  lemma {:induction false} SameEventContinues(e: Engine, cfg: Config, s: System, ev: Event, k: nat)
    requires AttemptReady(cfg, s, ev) && 0 < k < |EventCommits(s.store, ev)|
    ensures var st := Run(e, s.store, EventCommits(s.store, ev)[..k]); Continues(st, Stopped(e, s, ev, k, st), ev)
  {
    if ApplicationPlan(s.store, ev).ApplyChanges? {
      DirectStopped(e, s.store, ev, k);
    } else {
      RebuildStopped(e, cfg, s, ev, k);
    }
    StoppedIsCarried(e, s, ev, k, Run(e, s.store, EventCommits(s.store, ev)[..k]));
  }

  lemma {:induction false} StoppedIsCarried(e: Engine, s: System, ev: Event, k: nat, st: Store)
    requires k <= |EventCommits(s.store, ev)| && st.control.checkpoint == s.store.control.checkpoint
    ensures Continues(st, Stopped(e, s, ev, k, st), ev)
  {
  }
}
