/** Displacements from the moment a write is displaced: each is listed for the application
    until it is handled or the write is restored or finalized. */
module OpenDisplacements {
  import opened Wrappers
  import opened SqlHistory
  import opened WriteStatuses
  import opened Commits
  import opened EventEffects
  import opened Participant
  import opened QueueLemmas
  import opened Invariant
  import opened PublicationProofs
  import opened EventProofs
  import opened RunTheorems

  /** A new displacement, not handled yet. */
  predicate Opened(k: Tracking, r: Row)
  {
    r.status == Displaced && r.displacement.Some? && r.displacement.value.id >= k.nextId && !r.handled
  }

  /** No displacement: nothing is left to handle. */
  predicate Closed(r: Row)
  {
    r.status != Displaced && r.displacement.None? && r.handled
  }

  ghost predicate RowOpens(k: Tracking, k': Tracking, tx: TxId)
  {
    && (tx in k.row ==> tx in k'.row)
    && (tx in k'.row ==> (tx in k.row && k'.row[tx] == k.row[tx]) || Opened(k, k'.row[tx]) || Closed(k'.row[tx]))
  }

  /** Every row is as before, newly displaced, or free of displacements: no displacement
      is recorded as handled. */
  ghost predicate Opens(k: Tracking, k': Tracking)
  {
    k.nextId <= k'.nextId && forall tx :: RowOpens(k, k', tx)
  }

  lemma {:induction false} OpensIsTransitive(k: Tracking, k': Tracking, k'': Tracking)
    requires Opens(k, k') && Opens(k', k'')
    ensures Opens(k, k'')
  {
    forall tx ensures RowOpens(k, k'', tx) {
      assert RowOpens(k, k', tx) && RowOpens(k', k'', tx);
    }
  }

  // ---------------------------------------------------------------------------
  // Updates of the tables

  lemma {:induction false} FinalizingOpens(k: Tracking, msgs: seq<MsgId>)
    ensures Opens(k, FinalizeAll(k, msgs))
    decreases |msgs|
  {
    if msgs != [] {
      var k1 := FinalizeMessage(k, msgs[0]);
      assert forall tx :: RowOpens(k, k1, tx);
      FinalizingOpens(k1, msgs[1..]);
      OpensIsTransitive(k, k1, FinalizeAll(k, msgs));
    }
  }

  lemma {:induction false} DisplacingOpens(k: Tracking, w: Write, reason: Reason)
    ensures Opens(k, RecordDisplacement(k, w, reason))
  {
    forall tx ensures RowOpens(k, RecordDisplacement(k, w, reason), tx) {
    }
  }

  lemma {:induction false} OrphaningOpens(k: Tracking, os: seq<Observed>)
    requires OrphanAll(k, os).Some?
    ensures Opens(k, OrphanAll(k, os).value)
    decreases |os|
  {
    if os != [] {
      var k1 := OrphanWrite(k, os[0]).value;
      DisplacingOpens(k, os[0].write, Orphaned);
      OrphaningOpens(k1, os[1..]);
      OpensIsTransitive(k, k1, OrphanAll(k, os).value);
    }
  }

  lemma {:induction false} AdoptingOpens(k: Tracking, os: seq<Observed>)
    ensures Opens(k, AdoptAll(k, os))
    decreases |os|
  {
    if os != [] {
      var k1 := AdoptWrite(k, os[0]);
      forall tx ensures RowOpens(k, k1, tx) {
      }
      AdoptingOpens(k1, os[1..]);
      OpensIsTransitive(k, k1, AdoptAll(k, os));
    }
  }

  lemma {:induction false} UpdatingOpens(k: Tracking, msgs: seq<MsgId>, orphaned: seq<Observed>, adopted: seq<Observed>)
    requires UpdateWriteStatuses(k, msgs, orphaned, adopted).Some?
    ensures Opens(k, UpdateWriteStatuses(k, msgs, orphaned, adopted).value)
  {
    var k1 := FinalizeAll(k, msgs);
    var k2 := OrphanAll(k1, orphaned).value;
    FinalizingOpens(k, msgs);
    OrphaningOpens(k1, orphaned);
    AdoptingOpens(k2, adopted);
    OpensIsTransitive(k, k1, k2);
    OpensIsTransitive(k, k2, AdoptAll(k2, adopted));
  }

  ghost predicate KeepsRows(k: Tracking, k': Tracking)
  {
    forall tx :: tx in k.row ==> tx in k'.row && k'.row[tx] == k.row[tx]
  }

  lemma {:induction false} PublishedRowOpens(k: Tracking, k': Tracking, msg: MsgId, w: Write)
    requires PublishedAs(k, k', msg, w) && (w.tx in k.row ==> k.row[w.tx].status == Live)
    ensures RowOpens(k, k', w.tx) && (w.tx in k.row ==> w.tx in k'.row && k'.row[w.tx] == k.row[w.tx])
  {
  }

  lemma {:induction false} PublishingOpens(k: Tracking, msg: MsgId, ws: seq<Write>)
    requires ValidTracking(k) && DistinctIds(ws) && Publishable(k, ws)
    ensures Opens(k, PublishAll(k, msg, ws)) && KeepsRows(k, PublishAll(k, msg, ws))
  {
    var k' := PublishAll(k, msg, ws);
    PublishingRecordsBatch(k, msg, ws);
    PublishingIsValid(k, msg, ws);
    IdsContain(ws);
    forall tx ensures RowOpens(k, k', tx) && (tx in k.row ==> tx in k'.row && k'.row[tx] == k.row[tx]) {
      if tx in Ids(ws) {
        var w :| w in ws && w.tx == tx;
        PublishedRowOpens(k, k', msg, w);
      } else {
        assert SameRecord(k, k', tx);
      }
    }
  }

  // ---------------------------------------------------------------------------
  // Events

  /** The transactions of events: they handle no displacement and publish nothing. */
  predicate OfEvent(c: Commit)
  {
    !c.HandleDisplacement? && !c.SavePublication?
  }

  lemma {:induction false} BatchCommitsAreOfEvent(t: Target, msg: MsgId, ws: seq<Write>)
    ensures forall c :: c in BatchCommits(t, msg, ws) ==> OfEvent(c)
  {
    if ws != [] {
      BatchCommitsAreOfEvent(t, msg, ws[1..]);
    }
  }

  lemma {:induction false} ApplyCommitsAreOfEvent(t: Target, history: seq<Inscription>)
    ensures forall c :: c in ApplyCommits(t, history) ==> OfEvent(c)
  {
    if history != [] {
      ApplyCommitsAreOfEvent(t, history[1..]);
      if history[0].batch.Some? {
        BatchCommitsAreOfEvent(t, history[0].msg, history[0].batch.value);
      }
    }
  }

  lemma {:induction false} StatusCommitsAreOfEvent(ev: Event, adopted: seq<Inscription>)
    ensures forall c :: c in StatusCommits(ev, adopted) ==> OfEvent(c)
  {
    ObserveCommitsAreControl(ev.orphaned);
    ObserveCommitsAreControl(adopted);
  }

  lemma {:induction false} DirectCommitsAreOfEvent(ev: Event)
    ensures forall c :: c in DirectCommits(ev) ==> OfEvent(c)
  {
    ApplyCommitsAreOfEvent(LibAndLive, ev.finalized);
    ApplyCommitsAreOfEvent(LiveOnly, ev.adopted);
    StatusCommitsAreOfEvent(ev, ev.adopted);
  }

  lemma {:induction false} FinishCommitsAreOfEvent(ev: Event)
    ensures forall c :: c in FinishCommits(ev) ==> OfEvent(c)
  {
    match HistoryFor(ev)
    case None => StatusCommitsAreOfEvent(ev, ev.adopted);
    case Some(history) =>
      StatusCommitsAreOfEvent(ev, history);
      ReplayCommitsAreControl([], history);
  }

  lemma {:induction false} PrepareCommitsAreOfEvent(ev: Event, displaced: seq<Queued>)
    ensures forall c :: c in PrepareCommits(ev, displaced) ==> OfEvent(c)
  {
    ApplyCommitsAreOfEvent(LibOnly, ev.finalized);
    DisplaceCommitsAt(displaced);
  }

  lemma {:induction false} EventCommitsAreOfEvent(st: Store, ev: Event)
    ensures forall c :: c in EventCommits(st, ev) ==> OfEvent(c)
  {
    match ApplicationPlan(st, ev)
    case ApplyChanges => DirectCommitsAreOfEvent(ev);
    case Rebuild(displaced) =>
      PrepareCommitsAreOfEvent(ev, displaced);
      FinishCommitsAreOfEvent(ev);
  }

  lemma {:induction false} DoOpens(e: Engine, st: Store, c: Commit)
    requires OfEvent(c)
    ensures Opens(st.control.tracking, Do(e, st, c).control.tracking)
  {
    var k := st.control.tracking;
    if c.DisplaceQueued? {
      DisplacingOpens(k, c.q.write, PendingWriteInvalidated);
    } else if c.UpdateStatuses? && UpdateWriteStatuses(k, c.finalized, c.orphaned, c.adopted).Some? {
      UpdatingOpens(k, c.finalized, c.orphaned, c.adopted);
    } else {
      assert Do(e, st, c).control.tracking == k;
    }
  }

  lemma {:induction false} RunOpens(e: Engine, st: Store, cs: seq<Commit>)
    requires forall c :: c in cs ==> OfEvent(c)
    ensures Opens(st.control.tracking, Run(e, st, cs).control.tracking)
    decreases |cs|
  {
    if cs != [] {
      var st1 := Do(e, st, cs[0]);
      assert cs[0] in cs;
      DoOpens(e, st, cs[0]);
      RunOpens(e, st1, cs[1..]);
      OpensIsTransitive(st.control.tracking, st1.control.tracking, Run(e, st, cs).control.tracking);
    }
  }

  // ---------------------------------------------------------------------------
  // Steps

  lemma {:induction false} BatchOpens(e: Engine, s: System, view: View, n: nat, msg: MsgId, k: nat)
    requires ValidTracking(s.store.control.tracking) && BatchStarts(s, view, n, msg) && k <= 2
    requires InOrder(s.committed, s.store.control.tracking.order, s.store.queue)
    ensures var k' := Run(e, s.store, CompleteBatch(view, msg, s.store.queue[..n])[..k]).control.tracking;
      Opens(s.store.control.tracking, k') && KeepsRows(s.store.control.tracking, k')
  {
    var ws := QueuedWrites(s.store.queue);
    RunCompleteBatch(e, s.store, view, msg, s.store.queue[..n]);
    QueuedWritesTake(s.store.queue, n);
    QueueIsDistinct(s.committed, s.store.control.tracking.order, s.store.queue);
    BatchIsPublishable(s, view, n, msg);
    PublishingOpens(s.store.control.tracking, msg, ws[..n]);
  }

  lemma {:induction false} PersistOpens(e: Engine, cfg: Config, s: System, k: nat)
    requires Inv(cfg, s) && s.process.Up? && s.process.publish.CheckpointPending? && k <= 2
    ensures var k' := Step(e, s, PersistPublication(k)).store.control.tracking;
      Opens(s.store.control.tracking, k') && KeepsRows(s.store.control.tracking, k')
  {
    var n := PendingBatch(cfg, s);
    BatchOpens(e, s, s.process.publish.view, n, s.process.publish.msg, k);
  }

  lemma {:induction false} RestartOpens(e: Engine, cfg: Config, s: System, k: nat)
    requires Inv(cfg, s) && Enabled(e, cfg, s, Restart(k))
    ensures var k' := Step(e, s, Restart(k)).store.control.tracking;
      Opens(s.store.control.tracking, k') && KeepsRows(s.store.control.tracking, k')
  {
    var v := s.store.control.checkpoint;
    var n, msg := RecoveryShape(cfg, s);
    if RecoverCommits(v, v.history, s.store.queue) == [] {
      assert Step(e, s, Restart(k)).store == s.store;
    } else {
      BatchOpens(e, s, v, n, msg, k);
    }
  }

  lemma {:induction false} AttemptOpens(e: Engine, s: System, ev: Event, k: nat)
    requires s.process.Up? && k <= |EventCommits(s.store, ev)|
    ensures Opens(s.store.control.tracking, Step(e, s, AttemptEvent(ev, k)).store.control.tracking)
  {
    EventCommitsAreOfEvent(s.store, ev);
    RunOpens(e, s.store, EventCommits(s.store, ev)[..k]);
  }

  /** The displacement that an action handles. */
  function HandledBy(a: Action): Option<(TxId, nat)>
  {
    match a
    case RetryDisplacement(tx, id, q, marked) => if marked then Some((tx, id)) else None
    case MarkDisplacementHandled(tx, id) => Some((tx, id))
    case _ => None
  }

  lemma {:induction false} LocalStepOpens(e: Engine, s: System, a: Action)
    requires !a.PersistPublication? && !a.AttemptEvent? && !a.Restart?
    ensures var k, k' := s.store.control.tracking, Step(e, s, a).store.control.tracking;
      k' == if HandledBy(a).Some? then MarkHandled(k, HandledBy(a).value.0, HandledBy(a).value.1) else k
  {
  }

  /** A step handles the one displacement it names, or none; only events change rows
      otherwise. */
  ghost predicate StepTracks(k: Tracking, k': Tracking, a: Action)
  {
    if HandledBy(a).Some? then k' == MarkHandled(k, HandledBy(a).value.0, HandledBy(a).value.1)
    else Opens(k, k') && (!a.AttemptEvent? ==> KeepsRows(k, k'))
  }

  lemma {:induction false} StepOpens(e: Engine, cfg: Config, s: System, a: Action)
    requires Inv(cfg, s) && Enabled(e, cfg, s, a)
    ensures StepTracks(s.store.control.tracking, Step(e, s, a).store.control.tracking, a)
  {
    match a
    case PersistPublication(k) => PersistOpens(e, cfg, s, k);
    case Restart(k) => RestartOpens(e, cfg, s, k);
    case AttemptEvent(ev, k) => AttemptOpens(e, s, ev, k);
    case _ => LocalStepOpens(e, s, a);
  }

  // ---------------------------------------------------------------------------
  // Runs

  ghost predicate Listed(s: System, tx: TxId)
  {
    tx in Unhandled(s.store.control.tracking, s.store.control.tracking.order)
  }

  lemma {:induction false} RunStepTracks(e: Engine, cfg: Config, states: seq<System>, actions: seq<Action>, n: nat)
    requires IsRun(e, cfg, states, actions) && n < |actions|
    ensures StepTracks(states[n].store.control.tracking, states[n + 1].store.control.tracking, actions[n])
    ensures ValidTracking(states[n].store.control.tracking) && ValidTracking(states[n + 1].store.control.tracking)
  {
    RunKeepsInv(e, cfg, states, actions, n);
    RunKeepsInv(e, cfg, states, actions, n + 1);
    StepOpens(e, cfg, states[n], actions[n]);
  }

  lemma {:induction false} ListedExactlyWhenUnhandled(s: System, tx: TxId)
    requires ValidTracking(s.store.control.tracking)
    ensures Listed(s, tx) <==> IsUnhandled(s.store.control.tracking, tx)
  {
    UnhandledAreUnhandled(s.store.control.tracking, s.store.control.tracking.order);
  }

  /** A step that displaces a write lists it for the application. */
  lemma {:induction false} DisplacedIsListed(e: Engine, cfg: Config, states: seq<System>, actions: seq<Action>, n: nat,
                                             tx: TxId, id: nat)
    requires IsRun(e, cfg, states, actions) && n < |actions|
    requires DisplacedAs(states[n + 1], tx, id) && !DisplacedAs(states[n], tx, id)
    ensures Listed(states[n + 1], tx)
  {
    var k, k' := states[n].store.control.tracking, states[n + 1].store.control.tracking;
    RunStepTracks(e, cfg, states, actions, n);
    assert HandledBy(actions[n]).None? ==> RowOpens(k, k', tx);
    ListedExactlyWhenUnhandled(states[n + 1], tx);
  }

  /** The step ends the write's displacement: the application handles it under its
      identity, or an event restores or finalizes the write. */
  ghost predicate Ends(s: System, a: Action, s': System, tx: TxId)
  {
    || (HandledBy(a).Some? && HandledBy(a).value.0 == tx && DisplacedAs(s, tx, HandledBy(a).value.1))
    || (a.AttemptEvent? && tx in s'.store.control.tracking.row && Closed(s'.store.control.tracking.row[tx]))
  }

  ghost predicate EndsAt(states: seq<System>, actions: seq<Action>, n: nat, tx: TxId)
    requires n < |actions| && |states| == |actions| + 1
  {
    Ends(states[n], actions[n], states[n + 1], tx)
  }

  lemma {:induction false} LeavesListOnlyWhenEnded(e: Engine, cfg: Config, states: seq<System>, actions: seq<Action>,
                                                   n: nat, tx: TxId)
    requires IsRun(e, cfg, states, actions) && n < |actions|
    requires Listed(states[n], tx) && !Listed(states[n + 1], tx)
    ensures EndsAt(states, actions, n, tx)
  {
    var k, k' := states[n].store.control.tracking, states[n + 1].store.control.tracking;
    RunStepTracks(e, cfg, states, actions, n);
    ListedExactlyWhenUnhandled(states[n], tx);
    ListedExactlyWhenUnhandled(states[n + 1], tx);
    assert HandledBy(actions[n]).None? ==> RowOpens(k, k', tx);
  }

  lemma {:induction false} LeavesBetween(states: seq<System>, i: nat, j: nat, tx: TxId) returns (n: nat)
    requires i <= j < |states| && Listed(states[i], tx) && !Listed(states[j], tx)
    ensures i <= n < j && Listed(states[n], tx) && !Listed(states[n + 1], tx)
    decreases j - i
  {
    n := j - 1;
    if !Listed(states[n], tx) {
      n := LeavesBetween(states, i, n, tx);
    }
  }

  /** Between any two states of a run, a displaced write stays listed until it is handled,
      restored or finalized. */
  lemma {:induction false} ListedUntilEnded(e: Engine, cfg: Config, states: seq<System>, actions: seq<Action>, i: nat,
                                            j: nat, tx: TxId)
    requires IsRun(e, cfg, states, actions) && i <= j < |states|
    requires Listed(states[i], tx) && !Listed(states[j], tx)
    ensures exists n :: i <= n < j && EndsAt(states, actions, n, tx)
  {
    var n := LeavesBetween(states, i, j, tx);
    LeavesListOnlyWhenEnded(e, cfg, states, actions, n, tx);
  }

  /** Handling a displacement under its identity takes it off the list, and no other. */
  lemma {:induction false} HandlingUnlists(e: Engine, cfg: Config, states: seq<System>, actions: seq<Action>, n: nat,
                                           tx: TxId, id: nat)
    requires IsRun(e, cfg, states, actions) && n < |actions| && HandledBy(actions[n]) == Some((tx, id))
    ensures DisplacedAs(states[n], tx, id) ==> !Listed(states[n + 1], tx)
    ensures forall x :: x != tx || !DisplacedAs(states[n], tx, id) ==>
      (Listed(states[n + 1], x) <==> Listed(states[n], x))
  {
    RunStepTracks(e, cfg, states, actions, n);
    forall x | x != tx || !DisplacedAs(states[n], tx, id)
      ensures Listed(states[n + 1], x) <==> Listed(states[n], x)
    {
      ListedExactlyWhenUnhandled(states[n], x);
      ListedExactlyWhenUnhandled(states[n + 1], x);
    }
    ListedExactlyWhenUnhandled(states[n + 1], tx);
  }
}
