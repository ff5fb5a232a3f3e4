/** What holds in every state of every run, and between any two of them. */
module RunTheorems {
  import opened Wrappers
  import opened SqlHistory
  import opened WriteStatuses
  import opened Commits
  import opened Convergence
  import opened Participant
  import opened QueueLemmas
  import opened Invariant
  import opened PublicationProofs
  import opened EventProofs
  import opened Agreement

  lemma {:induction false} StepKeepsInv(e: Engine, cfg: Config, s: System, a: Action)
    requires Inv(cfg, s) && Enabled(e, cfg, s, a)
    ensures Inv(cfg, Step(e, s, a))
  {
    match a
    case Execute(q) => CommitLocalKeepsInv(e, cfg, s, q);
    case RetryDisplacement(tx, id, q, marked) =>
      CommitLocalKeepsInv(e, cfg, s, q);
      HandlingKeepsInv(e, cfg, s.(store := Do(e, s.store, CommitLocal(q)), committed := s.committed + [q.write]), tx,
                       id);
    case MarkDisplacementHandled(tx, id) => HandlingKeepsInv(e, cfg, s, tx, id);
    case AcceptPublication(n, msg) => AcceptKeepsInv(e, cfg, s, n, msg);
    case PersistPublication(k) => PersistKeepsInv(e, cfg, s, k);
    case ReadyEvent => ReadyEventKeepsInv(e, cfg, s);
    case AttemptEvent(ev, k) => AttemptKeepsInv(e, cfg, s, ev, k);
    case Crash => CrashKeepsInv(e, cfg, s);
    case Restart(k) => RestartKeepsInv(e, cfg, s, k);
  }

  lemma {:induction false} RunKeepsInv(e: Engine, cfg: Config, states: seq<System>, actions: seq<Action>, i: nat)
    requires IsRun(e, cfg, states, actions) && i < |states|
    ensures Inv(cfg, states[i])
  {
    if i == 0 {
      InitiallyInv(e, cfg);
    } else {
      RunKeepsInv(e, cfg, states, actions, i - 1);
      StepKeepsInv(e, cfg, states[i - 1], actions[i - 1]);
    }
  }

  lemma {:induction false} StepKeepsAgreement(e: Engine, cfg: Config, s: System, a: Action)
    requires Inv(cfg, s) && Agree(e, s) && Enabled(e, cfg, s, a) && Steady(e, s, a)
    ensures Agree(e, Step(e, s, a))
  {
    match a
    case Execute(q) => CommitLocalKeepsAgreement(e, cfg, s, q);
    case RetryDisplacement(tx, id, q, marked) =>
      CommitLocalKeepsAgreement(e, cfg, s, q);
      HandlingKeepsAgreement(e, s.(store := Do(e, s.store, CommitLocal(q)), committed := s.committed + [q.write]), tx,
                             id);
    case MarkDisplacementHandled(tx, id) => HandlingKeepsAgreement(e, s, tx, id);
    case PersistPublication(k) => PersistKeepsAgreement(e, cfg, s, k);
    case AttemptEvent(ev, k) => AttemptKeepsAgreement(e, cfg, s, ev, k);
    case Restart(k) => RestartKeepsAgreement(e, cfg, s, k);
    case _ => SameStoreAgrees(e, s, Step(e, s, a));
  }

  lemma {:induction false} RunKeepsAgreement(e: Engine, cfg: Config, states: seq<System>, actions: seq<Action>, i: nat)
    requires IsSteadyRun(e, cfg, states, actions) && i < |states|
    ensures Agree(e, states[i])
  {
    if i == 0 {
      InitiallyAgree(e);
    } else {
      RunKeepsAgreement(e, cfg, states, actions, i - 1);
      RunKeepsInv(e, cfg, states, actions, i - 1);
      StepKeepsAgreement(e, cfg, states[i - 1], actions[i - 1]);
    }
  }

  lemma {:induction false} AgreementIsReplay(e: Engine, s: System)
    requires Agree(e, s) && s.interrupted.None?
    ensures var st := s.store; var v := st.control.checkpoint;
      && st.lib == Replay(e, EmptyReplica(e), Writes(v.finalized))
      && (!st.control.rebuild ==>
            st.live == Replay(e, EmptyReplica(e), Writes(v.finalized) + Writes(v.history) + QueuedWrites(st.queue)))
  {
    AgreementBetweenEvents(e, s.store);
    ExpectedIsOneReplay(e, s.store.control.checkpoint, s.store.queue);
  }

  /** Over every steady run of local writes, publications, events, failures, crashes and
      restarts: whenever no event is in progress, LIB is the replay of the finalized
      history, and if no rebuild is pending LIVE is the replay of the finalized
      history, the surviving history and the queue. */
  lemma {:induction false} ReplicasConverge(e: Engine, cfg: Config, states: seq<System>, actions: seq<Action>, i: nat)
    requires IsSteadyRun(e, cfg, states, actions) && i < |states| && states[i].interrupted.None?
    ensures var st := states[i].store; var v := st.control.checkpoint;
      && st.lib == Replay(e, EmptyReplica(e), Writes(v.finalized))
      && (!st.control.rebuild ==>
            st.live == Replay(e, EmptyReplica(e), Writes(v.finalized) + Writes(v.history) + QueuedWrites(st.queue)))
  {
    RunKeepsAgreement(e, cfg, states, actions, i);
    AgreementIsReplay(e, states[i]);
  }

  /** No committed local write is lost: it is queued, or it has a status row. */
  lemma {:induction false} NoCommittedWriteIsLost(e: Engine, cfg: Config, states: seq<System>, actions: seq<Action>,
                                                  i: nat, w: Write)
    requires IsRun(e, cfg, states, actions) && i < |states| && w in states[i].committed
    ensures w in QueuedWrites(states[i].store.queue) || w.tx in states[i].store.control.tracking.row
  {
    RunKeepsInv(e, cfg, states, actions, i);
    var s := states[i];
    var C, k := s.committed, s.store.control.tracking;
    var j :| 0 <= j < |C| && C[j] == w;
    if j < |k.order| {
      RowPosition(C, k.order, j);
      assert w.tx in k.order;
    } else {
      var at := j - (|C| - |s.store.queue|);
      assert QueuedWrites(s.store.queue)[at] == w;
    }
  }

  lemma {:induction false} StepOnlyAppends(e: Engine, s: System, a: Action)
    ensures s.committed <= Step(e, s, a).committed
  {
  }

  lemma {:induction false} RunStepAppends(e: Engine, cfg: Config, states: seq<System>, actions: seq<Action>, n: nat)
    requires IsRun(e, cfg, states, actions) && n < |actions|
    ensures states[n].committed <= states[n + 1].committed
  {
    StepOnlyAppends(e, states[n], actions[n]);
  }

  /** The record of committed writes only grows along a run. */
  lemma {:induction false} CommittedOnlyGrows(e: Engine, cfg: Config, states: seq<System>, actions: seq<Action>, i: nat,
                                              j: nat)
    requires IsRun(e, cfg, states, actions) && i <= j < |states|
    ensures states[i].committed <= states[j].committed
    decreases j
  {
    if i < j {
      CommittedOnlyGrows(e, cfg, states, actions, i, j - 1);
      RunStepAppends(e, cfg, states, actions, j - 1);
    }
  }

  // ---------------------------------------------------------------------------
  // Statuses and displacements between two states of a run

  lemma {:induction false} SavingEvolves(e: Engine, s: System, view: View, n: nat, msg: MsgId)
    requires ValidTracking(s.store.control.tracking) && BatchStarts(s, view, n, msg)
    ensures Evolves(s.store.control.tracking,
                    Do(e, s.store, SavePublication(view, msg, s.store.queue[..n])).control.tracking)
  {
    QueuedWritesTake(s.store.queue, n);
    BatchIsPublishable(s, view, n, msg);
    PublishingIsValid(s.store.control.tracking, msg, QueuedWrites(s.store.queue)[..n]);
  }

  lemma {:induction false} BatchEvolves(e: Engine, s: System, view: View, n: nat, msg: MsgId, k: nat)
    requires ValidTracking(s.store.control.tracking) && BatchStarts(s, view, n, msg) && k <= 2
    ensures Evolves(s.store.control.tracking,
                    Run(e, s.store, CompleteBatch(view, msg, s.store.queue[..n])[..k]).control.tracking)
  {
    RunCompleteBatch(e, s.store, view, msg, s.store.queue[..n]);
    SavingEvolves(e, s, view, n, msg);
  }

  lemma {:induction false} PersistEvolves(e: Engine, cfg: Config, s: System, k: nat)
    requires Inv(cfg, s) && s.process.Up? && s.process.publish.CheckpointPending? && k <= 2
    ensures Evolves(s.store.control.tracking, Step(e, s, PersistPublication(k)).store.control.tracking)
  {
    var n := PendingBatch(cfg, s);
    BatchEvolves(e, s, s.process.publish.view, n, s.process.publish.msg, k);
  }

  lemma {:induction false} RecoverEvolves(e: Engine, s: System, n: nat, msg: MsgId, k: nat)
    requires ValidTracking(s.store.control.tracking) && BatchStarts(s, s.store.control.checkpoint, n, msg)
    requires var v := s.store.control.checkpoint;
      RecoverCommits(v, v.history, s.store.queue) == CompleteBatch(v, msg, s.store.queue[..n])
    ensures Evolves(s.store.control.tracking, Step(e, s, Restart(k)).store.control.tracking)
  {
    if k <= 2 {
      BatchEvolves(e, s, s.store.control.checkpoint, n, msg, k);
    }
  }

  lemma {:induction false} RecoverNothing(e: Engine, s: System, k: nat)
    requires var v := s.store.control.checkpoint; RecoverCommits(v, v.history, s.store.queue) == []
    ensures Evolves(s.store.control.tracking, Step(e, s, Restart(k)).store.control.tracking)
  {
    assert Step(e, s, Restart(k)).store == s.store;
  }

  lemma {:induction false} RestartEvolves(e: Engine, cfg: Config, s: System, k: nat)
    requires Inv(cfg, s) && s.process.Down?
    ensures Evolves(s.store.control.tracking, Step(e, s, Restart(k)).store.control.tracking)
  {
    var v := s.store.control.checkpoint;
    var n, msg := RecoveryShape(cfg, s);
    if RecoverCommits(v, v.history, s.store.queue) == [] {
      RecoverNothing(e, s, k);
    } else {
      RecoverEvolves(e, s, n, msg, k);
    }
  }

  lemma {:induction false} DirectAttemptEvolves(e: Engine, st: Store, ev: Event, k: nat)
    requires ValidTracking(st.control.tracking) && AllUnpublished(st) && SequencerContract(st, ev)
    requires k <= |DirectCommits(ev)|
    ensures Evolves(st.control.tracking, Run(e, st, DirectCommits(ev)[..k]).control.tracking)
  {
    if k < |DirectCommits(ev)| {
      DirectStopped(e, st, ev, k);
    } else {
      assert DirectCommits(ev)[..k] == DirectCommits(ev);
      var mid := DirectResult(e, st, ev);
    }
  }

  lemma {:induction false} RebuildAttemptEvolves(e: Engine, cfg: Config, s: System, ev: Event, k: nat)
    requires AttemptReady(cfg, s, ev) && ApplicationPlan(s.store, ev).Rebuild? && k <= |EventCommits(s.store, ev)|
    ensures Evolves(s.store.control.tracking, Run(e, s.store, EventCommits(s.store, ev)[..k]).control.tracking)
  {
    var cs := EventCommits(s.store, ev);
    if k == 0 {
      assert cs[..0] == [];
    } else if k < |cs| {
      RebuildStopped(e, cfg, s, ev, k);
    } else {
      assert cs[..k] == cs;
      RebuildCommitsInStages(s.store, ev);
      RebuildResult(e, s.store, ev);
      BeforeInstallDisplaces(e, cfg, s, ev);
      RebuiltStore(e, cfg, s, ev, Run(e, s.store, BeforeInstall(ev, s.store.queue)));
    }
  }

  lemma {:induction false} AttemptEvolves(e: Engine, cfg: Config, s: System, ev: Event, k: nat)
    requires Inv(cfg, s) && Enabled(e, cfg, s, AttemptEvent(ev, k))
    ensures Evolves(s.store.control.tracking, Step(e, s, AttemptEvent(ev, k)).store.control.tracking)
  {
    AttemptStart(e, cfg, s, ev, k);
    if ApplicationPlan(s.store, ev).ApplyChanges? {
      DirectAttemptEvolves(e, s.store, ev, k);
    } else {
      RebuildAttemptEvolves(e, cfg, s, ev, k);
    }
  }

  /** Actions that at most handle a displacement. */
  lemma {:induction false} LocalStepEvolves(e: Engine, s: System, a: Action)
    requires ValidTracking(s.store.control.tracking)
    requires !a.PersistPublication? && !a.AttemptEvent? && !a.Restart?
    ensures Evolves(s.store.control.tracking, Step(e, s, a).store.control.tracking)
  {
    match a
    case RetryDisplacement(tx, id, q, marked) => HandlingIsValid(s.store.control.tracking, tx, id);
    case MarkDisplacementHandled(tx, id) => HandlingIsValid(s.store.control.tracking, tx, id);
    case _ =>
  }

  lemma {:induction false} StepEvolves(e: Engine, cfg: Config, s: System, a: Action)
    requires Inv(cfg, s) && Enabled(e, cfg, s, a)
    ensures Evolves(s.store.control.tracking, Step(e, s, a).store.control.tracking)
  {
    match a
    case PersistPublication(k) => PersistEvolves(e, cfg, s, k);
    case Restart(k) => RestartEvolves(e, cfg, s, k);
    case AttemptEvent(ev, k) => AttemptEvolves(e, cfg, s, ev, k);
    case _ => LocalStepEvolves(e, s, a);
  }

  lemma {:induction false} RunStepEvolves(e: Engine, cfg: Config, states: seq<System>, actions: seq<Action>, n: nat)
    requires IsRun(e, cfg, states, actions) && n < |actions|
    ensures Evolves(states[n].store.control.tracking, states[n + 1].store.control.tracking)
  {
    RunKeepsInv(e, cfg, states, actions, n);
    StepEvolves(e, cfg, states[n], actions[n]);
  }

  lemma {:induction false} ChainEvolves(k: nat -> Tracking, i: nat, j: nat)
    requires i <= j && forall n :: i <= n < j ==> Evolves(k(n), k(n + 1))
    ensures Evolves(k(i), k(j))
    decreases j
  {
    if i < j {
      ChainEvolves(k, i, j - 1);
      assert Evolves(k(j - 1), k(j - 1 + 1));
      EvolvesIsTransitive(k(i), k(j - 1), k(j));
    }
  }

  lemma {:induction false} RunEvolves(e: Engine, cfg: Config, states: seq<System>, actions: seq<Action>, i: nat, j: nat)
    requires IsRun(e, cfg, states, actions) && i <= j < |states|
    ensures Evolves(states[i].store.control.tracking, states[j].store.control.tracking)
  {
    var k := (n: nat) => if n < |states| then states[n].store.control.tracking else states[0].store.control.tracking;
    forall n | i <= n < j
      ensures Evolves(k(n), k(n + 1))
    {
      RunStepEvolves(e, cfg, states, actions, n);
    }
    ChainEvolves(k, i, j);
  }

  /** `Finalized` is terminal in every run. */
  lemma {:induction false} FinalizedIsTerminal(e: Engine, cfg: Config, states: seq<System>, actions: seq<Action>,
                                               i: nat, j: nat, tx: TxId)
    requires IsRun(e, cfg, states, actions) && i <= j < |states|
    requires tx in states[i].store.control.tracking.row && states[i].store.control.tracking.row[tx].status == Finalized
    ensures tx in states[j].store.control.tracking.row && states[j].store.control.tracking.row[tx].status == Finalized
  {
    RunEvolves(e, cfg, states, actions, i, j);
    assert RowEvolves(states[i].store.control.tracking, states[j].store.control.tracking, tx);
  }

  /** The displacement of a write in a state of a run, by identity. */
  ghost predicate DisplacedAs(s: System, tx: TxId, id: nat)
  {
    var k := s.store.control.tracking;
    tx in k.row && k.row[tx].displacement.Some? && k.row[tx].displacement.value.id == id
  }

  /** An identity names one displacement: its payload and its reason never change. */
  lemma {:induction false} IdentityKeepsPayload(e: Engine, cfg: Config, states: seq<System>, actions: seq<Action>,
                                                i: nat, j: nat, tx: TxId, id: nat)
    requires IsRun(e, cfg, states, actions) && i <= j < |states|
    requires DisplacedAs(states[i], tx, id) && DisplacedAs(states[j], tx, id)
    ensures states[j].store.control.tracking.row[tx].displacement
         == states[i].store.control.tracking.row[tx].displacement
  {
    RunEvolves(e, cfg, states, actions, i, j);
    RunKeepsInv(e, cfg, states, actions, i);
    var k := states[i].store.control.tracking;
    assert ValidRow(k, tx);
    assert RowEvolves(k, states[j].store.control.tracking, tx);
  }

  /** A handled displacement is never reopened: as long as the write is displaced
      under the same identity, it stays handled. */
  lemma {:induction false} HandledStaysHandled(e: Engine, cfg: Config, states: seq<System>, actions: seq<Action>,
                                               i: nat, j: nat, tx: TxId, id: nat)
    requires IsRun(e, cfg, states, actions) && i <= j < |states|
    requires DisplacedAs(states[i], tx, id) && !IsUnhandled(states[i].store.control.tracking, tx)
    requires DisplacedAs(states[j], tx, id)
    ensures !IsUnhandled(states[j].store.control.tracking, tx)
  {
    RunEvolves(e, cfg, states, actions, i, j);
    RunKeepsInv(e, cfg, states, actions, i);
    var k := states[i].store.control.tracking;
    assert ValidRow(k, tx);
    assert RowEvolves(k, states[j].store.control.tracking, tx);
  }

  /** Once a displacement has been replaced or cleared its identity never returns,
      so handling it later leaves a newer displacement of the same write open. */
  lemma {:induction false} OldIdentityNeverReturns(e: Engine, cfg: Config, states: seq<System>, actions: seq<Action>,
                                                   i: nat, j: nat, l: nat, tx: TxId, id: nat)
    requires IsRun(e, cfg, states, actions) && i <= j <= l < |states|
    requires DisplacedAs(states[i], tx, id) && !DisplacedAs(states[j], tx, id)
    ensures !DisplacedAs(states[l], tx, id)
    ensures MarkHandled(states[l].store.control.tracking, tx, id) == states[l].store.control.tracking
  {
    RunEvolves(e, cfg, states, actions, i, j);
    RunEvolves(e, cfg, states, actions, j, l);
    RunKeepsInv(e, cfg, states, actions, i);
    var k, k' := states[i].store.control.tracking, states[j].store.control.tracking;
    var k'' := states[l].store.control.tracking;
    assert ValidRow(k, tx);
    assert RowEvolves(k, k', tx) && RowEvolves(k', k'', tx);
  }

  /** `xs` occurs in `ys` in the same order. */
  ghost predicate InSameOrder(xs: seq<TxId>, ys: seq<TxId>)
  {
    xs == [] || (ys != [] && (if xs[0] == ys[0] then InSameOrder(xs[1..], ys[1..]) else InSameOrder(xs, ys[1..])))
  }

  lemma {:induction false} UnhandledInSameOrder(k: Tracking, order: seq<TxId>, more: seq<TxId>)
    ensures InSameOrder(Unhandled(k, order), order + more)
    decreases |order|
  {
    if order != [] {
      assert (order + more)[1..] == order[1..] + more;
      UnhandledInSameOrder(k, order[1..], more);
      var rest := Unhandled(k, order[1..]);
      if rest != [] {
        UnhandledAreUnhandled(k, order[1..]);
        assert rest[0] in rest;
      }
      if IsUnhandled(k, order[0]) {
        assert Unhandled(k, order)[1..] == rest;
      } else {
        assert Unhandled(k, order) == rest;
      }
    }
  }

  lemma {:induction false} UnhandledAreUnhandled(k: Tracking, order: seq<TxId>)
    ensures forall tx :: tx in Unhandled(k, order) <==> tx in order && IsUnhandled(k, tx)
  {
    if order != [] {
      UnhandledAreUnhandled(k, order[1..]);
      assert order == [order[0]] + order[1..];
    }
  }

  /** `unhandled_displacements` lists writes in their original commit order, and
      lists exactly the unhandled ones, all of which are displaced. */
  lemma {:induction false} UnhandledInCommitOrder(e: Engine, cfg: Config, states: seq<System>, actions: seq<Action>,
                                                  i: nat)
    requires IsRun(e, cfg, states, actions) && i < |states|
    ensures var s := states[i]; var k := s.store.control.tracking;
      && InSameOrder(Unhandled(k, k.order), Ids(s.committed))
      && (forall tx :: tx in Unhandled(k, k.order) <==> IsUnhandled(k, tx))
      && (forall tx :: IsUnhandled(k, tx) ==> k.row[tx].status == Displaced)
  {
    RunKeepsInv(e, cfg, states, actions, i);
    var s := states[i];
    var k := s.store.control.tracking;
    UnhandledInSameOrder(k, k.order, Ids(s.committed)[|k.order|..]);
    assert k.order + Ids(s.committed)[|k.order|..] == Ids(s.committed);
    UnhandledAreUnhandled(k, k.order);
    forall tx | IsUnhandled(k, tx) ensures k.row[tx].status == Displaced && tx in k.order {
      assert ValidRow(k, tx);
    }
  }

  lemma {:induction false} PendingIsOldest(cfg: Config, s: System)
    requires Inv(cfg, s) && s.process.Up? && s.process.publish.CheckpointPending?
    ensures var batch := QueuedWrites(s.process.publish.batch); var at := |s.committed| - |s.store.queue|;
      0 < |batch| && 0 <= at && at + |batch| <= |s.committed| && batch == s.committed[at..at + |batch|]
  {
    var n := PendingBatch(cfg, s);
    QueuedWritesTake(s.store.queue, n);
  }

  /** Publication is first in, first out: whatever waits for its checkpoint is the
      oldest part of the committed writes that no status row covered before. */
  lemma {:induction false} PublicationIsFifo(e: Engine, cfg: Config, states: seq<System>, actions: seq<Action>, i: nat)
    requires IsRun(e, cfg, states, actions) && i < |states|
    requires states[i].process.Up? && states[i].process.publish.CheckpointPending?
    ensures var s := states[i]; var batch := QueuedWrites(s.process.publish.batch);
      var at := |s.committed| - |s.store.queue|;
      0 < |batch| && 0 <= at && at + |batch| <= |s.committed| && batch == s.committed[at..at + |batch|]
  {
    RunKeepsInv(e, cfg, states, actions, i);
    PendingIsOldest(cfg, states[i]);
  }

  /** The queue never exceeds its limits. */
  lemma {:induction false} QueueStaysWithinLimits(e: Engine, cfg: Config, states: seq<System>, actions: seq<Action>,
                                                  i: nat)
    requires IsRun(e, cfg, states, actions) && i < |states|
    ensures |states[i].store.queue| <= cfg.maxPending && QueueBytes(states[i].store.queue) <= cfg.maxBytes
  {
    RunKeepsInv(e, cfg, states, actions, i);
  }
}
