/** Every attempt at a channel event, complete or interrupted, keeps the invariant. */
module EventProofs {
  import opened Wrappers
  import opened SqlHistory
  import opened WriteStatuses
  import opened Commits
  import opened EventEffects
  import opened Participant
  import opened QueueLemmas
  import opened Invariant

  // ---------------------------------------------------------------------------
  // Transactions that leave the queue and the position alone

  /** Transactions that only execute writes or record what happened to them. */
  predicate Benign(c: Commit)
  {
    || c.FinalizeLib? || c.FinalizeLive? || c.RecordFinalizeRejection? || c.AdoptLive? || c.RecordAdoptRejection?
    || c.RebuildLib? || c.RecordLibRejection? || c.RecordPayloadRejection? || c.RecordRebuildRejection?
    || c.UpdateStatuses?
  }

  /** No restored write is in the queue. */
  ghost predicate AdoptsNothingQueued(c: Commit, queue: seq<Queued>)
  {
    c.UpdateStatuses? ==> forall o, w :: o in c.adopted && w in QueuedWrites(queue) ==> o.write.tx != w.tx
  }

  ghost predicate BenignFor(cs: seq<Commit>, queue: seq<Queued>)
  {
    forall c :: c in cs ==> Benign(c) && AdoptsNothingQueued(c, queue)
  }

  /** What such transactions keep. */
  ghost predicate Framed(st: Store, st': Store)
  {
    && st'.queue == st.queue
    && st'.control.checkpoint == st.control.checkpoint
    && st'.control.rebuild == st.control.rebuild
    && st.control.rejected <= st'.control.rejected
    && ValidTracking(st'.control.tracking)
    && st'.control.tracking.order == st.control.tracking.order
    && Evolves(st.control.tracking, st'.control.tracking)
    && forall w :: w in QueuedWrites(st.queue) ==> Untouched(st.control.tracking, st'.control.tracking, w.tx)
  }

  lemma {:induction false} UpdateIsFramed(st: Store, c: Commit, k: Tracking)
    requires ValidTracking(st.control.tracking) && c.UpdateStatuses? && AdoptsNothingQueued(c, st.queue)
    requires forall w :: w in QueuedWrites(st.queue) ==> w.tx !in st.control.tracking.locals
    requires UpdateWriteStatuses(st.control.tracking, c.finalized, c.orphaned, c.adopted) == Some(k)
    ensures Framed(st, WithTracking(st, k))
  {
    UpdatingIsValid(st.control.tracking, c.finalized, c.orphaned, c.adopted);
    forall w | w in QueuedWrites(st.queue)
      ensures Untouched(st.control.tracking, k, w.tx)
    {
      UpdatingLeavesUnpublished(st.control.tracking, c.finalized, c.orphaned, c.adopted, w.tx);
    }
  }

  lemma {:induction false} DoIsFramed(e: Engine, st: Store, c: Commit)
    requires ValidTracking(st.control.tracking) && Benign(c) && AdoptsNothingQueued(c, st.queue)
    requires forall w :: w in QueuedWrites(st.queue) ==> w.tx !in st.control.tracking.locals
    ensures Framed(st, Do(e, st, c))
  {
    if c.UpdateStatuses? {
      var k := UpdateWriteStatuses(st.control.tracking, c.finalized, c.orphaned, c.adopted);
      if k.Some? {
        UpdateIsFramed(st, c, k.value);
      }
    }
  }

  lemma {:induction false} RunIsFramed(e: Engine, st: Store, cs: seq<Commit>)
    requires ValidTracking(st.control.tracking) && BenignFor(cs, st.queue)
    requires forall w :: w in QueuedWrites(st.queue) ==> w.tx !in st.control.tracking.locals
    ensures Framed(st, Run(e, st, cs))
    decreases |cs|
  {
    if cs != [] {
      assert cs[0] in cs;
      DoIsFramed(e, st, cs[0]);
      var st1 := Do(e, st, cs[0]);
      RunIsFramed(e, st1, cs[1..]);
      EvolvesIsTransitive(st.control.tracking, st1.control.tracking, Run(e, st, cs).control.tracking);
      assert forall w :: w in QueuedWrites(st.queue) ==> Untouched(st.control.tracking, st1.control.tracking, w.tx);
    }
  }

  /** A frame keeps the queue unpublished. */
  lemma {:induction false} FrameKeepsUnpublished(st: Store, st': Store)
    requires AllUnpublished(st) && Framed(st, st')
    ensures AllUnpublished(st')
  {
    forall w | w in QueuedWrites(st'.queue) ensures Unpublished(st', w) {
      assert Unpublished(st, w) && Untouched(st.control.tracking, st'.control.tracking, w.tx);
    }
  }

  lemma {:induction false} ApplyCommitsAreBenign(t: Target, history: seq<Inscription>, queue: seq<Queued>)
    ensures BenignFor(ApplyCommits(t, history), queue)
    ensures forall c :: c in ApplyCommits(t, history) ==> !c.UpdateStatuses?
  {
    if history != [] {
      ApplyCommitsAreBenign(t, history[1..], queue);
      if history[0].batch.Some? {
        BatchCommitsAreBenign(t, history[0].msg, history[0].batch.value);
      }
    }
  }

  lemma {:induction false} BatchCommitsAreBenign(t: Target, msg: MsgId, ws: seq<Write>)
    ensures forall c :: c in BatchCommits(t, msg, ws) ==> Benign(c) && !c.UpdateStatuses?
  {
    if ws != [] {
      BatchCommitsAreBenign(t, msg, ws[1..]);
    }
  }

  /** No write of these inscriptions is queued. */
  ghost predicate NotQueued(history: seq<Inscription>, queue: seq<Queued>)
  {
    forall w :: w in QueuedWrites(queue) ==> w.tx !in Ids(Writes(history))
  }

  lemma {:induction false} StatusCommitsAreBenign(ev: Event, adopted: seq<Inscription>, queue: seq<Queued>)
    requires NotQueued(adopted, queue)
    ensures BenignFor(StatusCommits(ev, adopted), queue)
  {
    ObserveCommitsAreControl(ev.orphaned);
    ObserveCommitsAreControl(adopted);
    ObservedWrites(adopted);
    IdsContain(Writes(adopted));
  }

  lemma {:induction false} ReplayCommitsAreBenign(before: seq<Write>, history: seq<Inscription>, queue: seq<Queued>)
    ensures BenignFor(ReplayCommits(before, history), queue)
  {
    ReplayCommitsAreControl(before, history);
  }

  lemma {:induction false} PrefixIsBenign(cs: seq<Commit>, queue: seq<Queued>, k: nat)
    requires BenignFor(cs, queue) && k <= |cs|
    ensures BenignFor(cs[..k], queue)
  {
  }

  // ---------------------------------------------------------------------------
  // Direct application

  /** Everything but the last transaction, which saves the checkpoint. */
  function DirectBody(ev: Event): seq<Commit>
  {
    ApplyCommits(LibAndLive, ev.finalized) + ApplyCommits(LiveOnly, ev.adopted) + StatusCommits(ev, ev.adopted)
  }

  lemma {:induction false} DirectBodyIsBenign(ev: Event, queue: seq<Queued>)
    requires NotQueued(ev.adopted, queue)
    ensures BenignFor(DirectBody(ev), queue)
    ensures DirectCommits(ev) == DirectBody(ev) + [SaveCheckpoint(ev.view)]
  {
    ApplyCommitsAreBenign(LibAndLive, ev.finalized, queue);
    ApplyCommitsAreBenign(LiveOnly, ev.adopted, queue);
    StatusCommitsAreBenign(ev, ev.adopted, queue);
  }

  lemma {:induction false} ContractNotQueued(st: Store, ev: Event)
    requires SequencerContract(st, ev)
    ensures NotQueued(ev.finalized, st.queue) && NotQueued(ev.adopted, st.queue) && NotQueued(ev.view.history, st.queue)
  {
  }

  /** The new position knows no queued write. */
  lemma {:induction false} SavedViewKeepsUnpublished(st: Store, mid: Store, ev: Event, st': Store)
    requires SequencerContract(st, ev) && AllUnpublished(mid)
    requires mid.queue == st.queue && mid.control.checkpoint == st.control.checkpoint
    requires st'.queue == st.queue && st'.control.checkpoint == ev.view
    requires st'.control.rebuild == mid.control.rebuild && st'.control.tracking == mid.control.tracking
    ensures AllUnpublished(st')
  {
    var v := st.control.checkpoint;
    WritesConcat(v.finalized, ev.finalized);
    IdsConcat(Writes(v.finalized), Writes(ev.finalized));
    IdsConcat(Writes(v.finalized), Writes(v.history));
    IdsConcat(Writes(ev.view.finalized), Writes(ev.view.history));
    forall w | w in QueuedWrites(st'.queue) ensures Unpublished(st', w) {
      assert Unpublished(mid, w);
    }
  }

  lemma {:induction false} RunThenOne(e: Engine, st: Store, cs: seq<Commit>, c: Commit)
    ensures Run(e, st, cs + [c]) == Do(e, Run(e, st, cs), c)
  {
    RunConcat(e, st, cs, [c]);
    var mid := Run(e, st, cs);
    assert Run(e, mid, [c]) == Run(e, Do(e, mid, c), []);
  }

  /** The store after a complete direct attempt. */
  lemma {:induction false} DirectResult(e: Engine, st: Store, ev: Event) returns (mid: Store)
    requires ValidTracking(st.control.tracking) && AllUnpublished(st) && SequencerContract(st, ev)
    ensures mid == Run(e, st, DirectBody(ev)) && Framed(st, mid) && AllUnpublished(mid)
    ensures Run(e, st, DirectCommits(ev)) == Do(e, mid, SaveCheckpoint(ev.view))
  {
    mid := Run(e, st, DirectBody(ev));
    ContractNotQueued(st, ev);
    DirectBodyIsBenign(ev, st.queue);
    RunIsFramed(e, st, DirectBody(ev));
    FrameKeepsUnpublished(st, mid);
    RunThenOne(e, st, DirectBody(ev), SaveCheckpoint(ev.view));
  }

  /** What an attempt at an event may rely on. */
  ghost predicate AttemptReady(cfg: Config, s: System, ev: Event)
  {
    && s.process.Up? && s.process.publish.Idle?
    && ValidTracking(s.store.control.tracking)
    && InOrder(s.committed, s.store.control.tracking.order, s.store.queue)
    && NonEmptyBatches(s.store.control.checkpoint.history)
    && WithinLimits(cfg, s.store.queue)
    && AllUnpublished(s.store)
    && SequencerContract(s.store, ev)
  }

  lemma {:induction false} AttemptStart(e: Engine, cfg: Config, s: System, ev: Event, k: nat)
    requires Inv(cfg, s) && Enabled(e, cfg, s, AttemptEvent(ev, k))
    ensures AttemptReady(cfg, s, ev)
  {
    IdleQueueIsUnpublished(cfg, s);
  }

  /** The step of an attempt that stopped after committing `cs`. */
  lemma {:induction false} InterruptedStep(e: Engine, s: System, ev: Event, cs: seq<Commit>)
    requires s.process.Up? && 0 < |cs| < |EventCommits(s.store, ev)| && EventCommits(s.store, ev)[..|cs|] == cs
    ensures var st := Run(e, s.store, cs);
      Step(e, s, AttemptEvent(ev, |cs|))
        == System(st, s.process.(retrying := Some(ev)), Some(Stopped(e, s, ev, |cs|, st)), s.committed)
  {
  }

  /** The step of a complete attempt that committed `cs`. */
  lemma {:induction false} CompletedStep(e: Engine, s: System, ev: Event, cs: seq<Commit>)
    requires s.process.Up? && EventCommits(s.store, ev) == cs
    ensures Step(e, s, AttemptEvent(ev, |cs|)) == System(Run(e, s.store, cs), Applied(s.process), None, s.committed)
  {
    assert cs[..|cs|] == cs;
  }

  /** A direct attempt that stops changes neither the queue nor the position. */
  lemma {:induction false} DirectStopped(e: Engine, st: Store, ev: Event, k: nat)
    requires ValidTracking(st.control.tracking) && AllUnpublished(st) && SequencerContract(st, ev)
    requires k < |DirectCommits(ev)|
    ensures Framed(st, Run(e, st, DirectCommits(ev)[..k])) && AllUnpublished(Run(e, st, DirectCommits(ev)[..k]))
  {
    ContractNotQueued(st, ev);
    DirectBodyIsBenign(ev, st.queue);
    assert DirectCommits(ev)[..k] == DirectBody(ev)[..k];
    PrefixIsBenign(DirectBody(ev), st.queue, k);
    RunIsFramed(e, st, DirectBody(ev)[..k]);
    FrameKeepsUnpublished(st, Run(e, st, DirectBody(ev)[..k]));
  }

  lemma {:induction false} DirectInterruptionKeepsInv(e: Engine, cfg: Config, s: System, ev: Event, k: nat)
    requires AttemptReady(cfg, s, ev) && ApplicationPlan(s.store, ev).ApplyChanges? && 0 < k < |DirectCommits(ev)|
    ensures Inv(cfg, Step(e, s, AttemptEvent(ev, k)))
  {
    var cs := DirectCommits(ev)[..k];
    InterruptedStep(e, s, ev, cs);
    DirectStopped(e, s.store, ev, k);
    var st := Run(e, s.store, cs);
    IdleIsInv(cfg, st, s.process.(retrying := Some(ev)), Some(Stopped(e, s, ev, k, st)), s.committed);
  }

  lemma {:induction false} DirectCompletionKeepsInv(e: Engine, cfg: Config, s: System, ev: Event)
    requires AttemptReady(cfg, s, ev) && ApplicationPlan(s.store, ev).ApplyChanges?
    ensures Inv(cfg, Step(e, s, AttemptEvent(ev, |DirectCommits(ev)|)))
  {
    var st := Run(e, s.store, DirectCommits(ev));
    CompletedStep(e, s, ev, DirectCommits(ev));
    var mid := DirectResult(e, s.store, ev);
    SavedViewKeepsUnpublished(s.store, mid, ev, st);
    IdleIsInv(cfg, st, Applied(s.process), None, s.committed);
  }

  // ---------------------------------------------------------------------------
  // Rebuild: the control store

  /** A rebuild in progress: the flag is set and no committed write is lost. */
  ghost predicate Rebuilding(s: System, st: Store)
  {
    && st.control.rebuild
    && st.control.checkpoint == s.store.control.checkpoint
    && ValidTracking(st.control.tracking)
    && Evolves(s.store.control.tracking, st.control.tracking)
    && InOrder(s.committed, st.control.tracking.order, st.queue)
    && AllUnpublished(st)
    && (st.queue == s.store.queue || st.queue == [])
  }

  /** The first `i` queued writes are recorded as displaced. */
  ghost predicate Displacing(s: System, st: Store, i: nat)
  {
    && Rebuilding(s, st)
    && st.queue == s.store.queue
    && |st.control.tracking.order| >= |s.committed| - |st.queue| + i
  }

  lemma {:induction false} DisplaceCommitsAt(queue: seq<Queued>)
    ensures |DisplaceCommits(queue)| == |queue|
    ensures forall i :: 0 <= i < |queue| ==> DisplaceCommits(queue)[i] == DisplaceQueued(queue[i])
  {
    if queue != [] {
      DisplaceCommitsAt(queue[1..]);
    }
  }

  /** Where a committed write stands among the rows. */
  lemma {:induction false} RowPosition(committed: seq<Write>, order: seq<TxId>, i: nat)
    requires DistinctIds(committed) && |order| <= |committed| && order == Ids(committed)[..|order|] && i < |committed|
    ensures committed[i].tx in order <==> i < |order|
  {
    IdsAt(committed);
    assert i < |order| ==> order[i] == committed[i].tx;
    if committed[i].tx in order {
      var j :| 0 <= j < |order| && order[j] == committed[i].tx;
      assert committed[j].tx == committed[i].tx;
    }
  }

  /** A row for the next queued write extends the prefix of committed writes. */
  lemma {:induction false} DisplaceOrder(committed: seq<Write>, order: seq<TxId>, queue: seq<Queued>, i: nat)
    requires InOrder(committed, order, queue) && i < |queue| && |order| >= |committed| - |queue| + i
    ensures var tx := queue[i].write.tx; var order' := if tx in order then order else order + [tx];
      InOrder(committed, order', queue) && |order'| >= |committed| - |queue| + i + 1
  {
    var at := |committed| - |queue| + i;
    QueuedWritesAt(queue);
    assert queue[i].write == QueuedWrites(queue)[i] == committed[at];
    RowPosition(committed, order, at);
    IdsAt(committed);
  }

  lemma {:induction false} DisplacedTracking(s: System, st: Store, i: nat)
    requires Displacing(s, st, i) && i < |s.store.queue|
    ensures var w := st.queue[i].write;
      var k, k' := st.control.tracking, RecordDisplacement(st.control.tracking, w, PendingWriteInvalidated);
      && (w.tx in k.row ==> k.row[w.tx].status != Finalized)
      && ValidTracking(k') && Evolves(s.store.control.tracking, k')
      && k'.order == (if w.tx in k.order then k.order else k.order + [w.tx])
  {
    var k, w := st.control.tracking, st.queue[i].write;
    assert Unpublished(st, w) by {
      QueuedWritesAt(st.queue);
      assert QueuedWrites(st.queue)[i] == w;
    }
    DisplacingIsValid(k, w, PendingWriteInvalidated);
    EvolvesIsTransitive(s.store.control.tracking, k, RecordDisplacement(k, w, PendingWriteInvalidated));
  }

  lemma {:induction false} DisplacedNext(s: System, st: Store, i: nat)
    requires Displacing(s, st, i) && i < |s.store.queue|
    ensures var k := RecordDisplacement(st.control.tracking, st.queue[i].write, PendingWriteInvalidated);
      Displacing(s, WithTracking(st, k), i + 1)
  {
    DisplacedTracking(s, st, i);
    DisplaceOrder(s.committed, st.control.tracking.order, st.queue, i);
    DisplacedQueueIsUnpublished(st, st.queue[i].write);
  }

  lemma {:induction false} DisplaceNext(e: Engine, s: System, st: Store, i: nat)
    requires Displacing(s, st, i) && i < |s.store.queue|
    ensures Displacing(s, Do(e, st, DisplaceQueued(st.queue[i])), i + 1)
  {
    DisplacedNext(s, st, i);
  }

  lemma {:induction false} DisplacedQueueIsUnpublished(st: Store, w: Write)
    requires AllUnpublished(st) && st.control.rebuild && ValidTracking(st.control.tracking)
    requires w.tx in st.control.tracking.row ==> st.control.tracking.row[w.tx].status != Finalized
    ensures AllUnpublished(WithTracking(st, RecordDisplacement(st.control.tracking, w, PendingWriteInvalidated)))
  {
    var st' := WithTracking(st, RecordDisplacement(st.control.tracking, w, PendingWriteInvalidated));
    DisplacingIsValid(st.control.tracking, w, PendingWriteInvalidated);
    forall x | x in QueuedWrites(st'.queue) ensures Unpublished(st', x) {
      assert Unpublished(st, x);
    }
  }

  /** The transactions before any database changes. */
  function DisplaceAll(queue: seq<Queued>): seq<Commit>
  {
    [RequireRebuild] + DisplaceCommits(queue)
  }

  lemma {:induction false} DisplaceAllStage(e: Engine, s: System, i: nat)
    requires ValidTracking(s.store.control.tracking)
    requires InOrder(s.committed, s.store.control.tracking.order, s.store.queue) && AllUnpublished(s.store)
    requires i <= |s.store.queue|
    ensures |DisplaceAll(s.store.queue)| == |s.store.queue| + 1
    ensures Displacing(s, Run(e, s.store, DisplaceAll(s.store.queue)[..i + 1]), i)
    decreases i
  {
    var cs := DisplaceAll(s.store.queue);
    DisplaceCommitsAt(s.store.queue);
    RunNext(e, s.store, cs, i);
    if i == 0 {
      assert cs[..0] == [];
      var st := Do(e, s.store, RequireRebuild);
      assert forall w :: w in QueuedWrites(st.queue) ==> Unpublished(s.store, w);
    } else {
      DisplaceAllStage(e, s, i - 1);
      DisplaceNext(e, s, Run(e, s.store, cs[..i]), i - 1);
    }
  }

  /** The transactions between displacement and the replacement of LIVE. */
  function RebuildBody(ev: Event): seq<Commit>
  {
    match HistoryFor(ev)
    case None => ApplyCommits(LibOnly, ev.finalized) + StatusCommits(ev, ev.adopted)
    case Some(history) =>
      ApplyCommits(LibOnly, ev.finalized) + StatusCommits(ev, history) + ReplayCommits([], history)
  }

  function RebuildTail(ev: Event): seq<Commit>
  {
    match HistoryFor(ev)
    case None => [SaveCheckpoint(ev.view)]
    case Some(history) => [InstallRebuild(Writes(history)), SaveRebuiltCheckpoint(ev.view)]
  }

  lemma {:induction false} RebuildStages(ev: Event, queue: seq<Queued>)
    ensures RebuildCommits(ev, queue) == DisplaceAll(queue) + (RebuildBody(ev) + RebuildTail(ev))
  {
    var first, libs := DisplaceAll(queue), ApplyCommits(LibOnly, ev.finalized);
    assert PrepareCommits(ev, queue) == first + libs;
    match HistoryFor(ev)
    case None =>
      Reassociate(first, libs, StatusCommits(ev, ev.adopted), [], RebuildTail(ev));
      assert libs + StatusCommits(ev, ev.adopted) + [] == RebuildBody(ev);
      assert StatusCommits(ev, ev.adopted) + [] + RebuildTail(ev) == FinishCommits(ev);
    case Some(history) =>
      Reassociate(first, libs, StatusCommits(ev, history), ReplayCommits([], history), RebuildTail(ev));
  }

  lemma {:induction false} Reassociate(a: seq<Commit>, b: seq<Commit>, c: seq<Commit>, d: seq<Commit>, t: seq<Commit>)
    ensures (a + b) + (c + d + t) == a + ((b + c + d) + t)
  {
  }

  lemma {:induction false} RebuildBodyIsBenign(st: Store, ev: Event)
    requires SequencerContract(st, ev)
    ensures BenignFor(RebuildBody(ev), st.queue)
  {
    ApplyCommitsAreBenign(LibOnly, ev.finalized, st.queue);
    match HistoryFor(ev)
    case None => StatusCommitsAreBenign(ev, ev.adopted, st.queue);
    case Some(history) =>
      StatusCommitsAreBenign(ev, history, st.queue);
      ReplayCommitsAreBenign([], history, st.queue);
  }

  /** A rebuild displaces the whole queue it finds. */
  lemma {:induction false} RebuildDisplacesQueue(st: Store, ev: Event)
    requires ApplicationPlan(st, ev).Rebuild?
    ensures ApplicationPlan(st, ev) == Rebuild(st.queue)
  {
  }

  /** After `j` transactions of the body, with every queued write displaced. */
  lemma {:induction false} BodyStage(e: Engine, s: System, ev: Event, mid: Store, j: nat)
    requires Displacing(s, mid, |s.store.queue|) && SequencerContract(s.store, ev) && j <= |RebuildBody(ev)|
    ensures Displacing(s, Run(e, mid, RebuildBody(ev)[..j]), |s.store.queue|)
  {
    RebuildBodyIsBenign(s.store, ev);
    PrefixIsBenign(RebuildBody(ev), s.store.queue, j);
    assert forall w :: w in QueuedWrites(mid.queue) ==> Unpublished(mid, w);
    RunIsFramed(e, mid, RebuildBody(ev)[..j]);
    EvolvesIsTransitive(s.store.control.tracking, mid.control.tracking,
                        Run(e, mid, RebuildBody(ev)[..j]).control.tracking);
    FrameKeepsUnpublished(mid, Run(e, mid, RebuildBody(ev)[..j]));
  }

  /** The queue may go once every queued write is recorded. */
  lemma {:induction false} InstallLosesNothing(e: Engine, s: System, st: Store, replayed: seq<Write>)
    requires Displacing(s, st, |s.store.queue|)
    ensures Rebuilding(s, Do(e, st, InstallRebuild(replayed)))
  {
  }

  // ---------------------------------------------------------------------------
  // Rebuild: the whole attempt

  /** The transactions before LIVE is replaced. */
  function BeforeInstall(ev: Event, queue: seq<Queued>): seq<Commit>
  {
    DisplaceAll(queue) + RebuildBody(ev)
  }

  lemma {:induction false} RebuildCommitsInStages(st: Store, ev: Event)
    requires ApplicationPlan(st, ev).Rebuild?
    ensures EventCommits(st, ev) == BeforeInstall(ev, st.queue) + RebuildTail(ev)
  {
    RebuildDisplacesQueue(st, ev);
    RebuildStages(ev, st.queue);
    assert DisplaceAll(st.queue) + (RebuildBody(ev) + RebuildTail(ev)) == BeforeInstall(ev, st.queue) + RebuildTail(ev);
  }

  /** The first `k` transactions stop before LIVE is replaced. */
  lemma {:induction false} AllDisplaced(e: Engine, cfg: Config, s: System, ev: Event)
    requires AttemptReady(cfg, s, ev)
    ensures Displacing(s, Run(e, s.store, DisplaceAll(s.store.queue)), |s.store.queue|)
  {
    DisplaceAllStage(e, s, |s.store.queue|);
    assert DisplaceAll(s.store.queue)[..|s.store.queue| + 1] == DisplaceAll(s.store.queue);
  }

  lemma {:induction false} EarlyStage(e: Engine, cfg: Config, s: System, ev: Event, k: nat)
    requires AttemptReady(cfg, s, ev) && 0 < k <= |DisplaceAll(s.store.queue)|
    ensures Rebuilding(s, Run(e, s.store, BeforeInstall(ev, s.store.queue)[..k]))
  {
    DisplaceAllStage(e, s, 0);
    DisplaceAllStage(e, s, k - 1);
    assert BeforeInstall(ev, s.store.queue)[..k] == DisplaceAll(s.store.queue)[..k];
  }

  lemma {:induction false} LaterStage(e: Engine, cfg: Config, s: System, ev: Event, k: nat)
    requires AttemptReady(cfg, s, ev) && |DisplaceAll(s.store.queue)| <= k <= |BeforeInstall(ev, s.store.queue)|
    ensures Displacing(s, Run(e, s.store, BeforeInstall(ev, s.store.queue)[..k]), |s.store.queue|)
  {
    var first := DisplaceAll(s.store.queue);
    RunPrefix(e, s.store, first, RebuildBody(ev), k);
    AllDisplaced(e, cfg, s, ev);
    BodyStage(e, s, ev, Run(e, s.store, first), k - |first|);
  }

  lemma {:induction false} BeforeInstallStage(e: Engine, cfg: Config, s: System, ev: Event, k: nat)
    requires AttemptReady(cfg, s, ev) && 0 < k <= |BeforeInstall(ev, s.store.queue)|
    ensures Rebuilding(s, Run(e, s.store, BeforeInstall(ev, s.store.queue)[..k]))
    ensures k == |BeforeInstall(ev, s.store.queue)| ==>
              Displacing(s, Run(e, s.store, BeforeInstall(ev, s.store.queue)[..k]), |s.store.queue|)
  {
    if k < |DisplaceAll(s.store.queue)| {
      EarlyStage(e, cfg, s, ev, k);
    } else {
      LaterStage(e, cfg, s, ev, k);
    }
  }

  /** LIVE is replaced and the flag still set. */
  lemma {:induction false} AfterInstall(e: Engine, cfg: Config, s: System, ev: Event, replayed: seq<Write>)
    requires AttemptReady(cfg, s, ev)
    ensures Rebuilding(s, Do(e, Run(e, s.store, BeforeInstall(ev, s.store.queue)), InstallRebuild(replayed)))
  {
    BeforeInstallDisplaces(e, cfg, s, ev);
    InstallLosesNothing(e, s, Run(e, s.store, BeforeInstall(ev, s.store.queue)), replayed);
  }

  lemma {:induction false} BeforeInstallDisplaces(e: Engine, cfg: Config, s: System, ev: Event)
    requires AttemptReady(cfg, s, ev)
    ensures Displacing(s, Run(e, s.store, BeforeInstall(ev, s.store.queue)), |s.store.queue|)
  {
    var cs := BeforeInstall(ev, s.store.queue);
    assert cs[..|cs|] == cs;
    BeforeInstallStage(e, cfg, s, ev, |cs|);
  }

  /** An attempt that stops with the flag still set. */
  lemma {:induction false} StillRebuildingIsInv(cfg: Config, s: System, ev: Event, st: Store, i: Interrupted)
    requires s.process.Up? && s.process.publish.Idle?
    requires NonEmptyBatches(s.store.control.checkpoint.history) && WithinLimits(cfg, s.store.queue)
    requires Rebuilding(s, st)
    ensures Inv(cfg, System(st, s.process.(retrying := Some(ev)), Some(i), s.committed))
  {
    assert QueueBytes([]) == 0;
    IdleIsInv(cfg, st, s.process.(retrying := Some(ev)), Some(i), s.committed);
  }

  /** The store of a rebuild that stopped after `k` transactions. */
  lemma {:induction false} RebuildStopped(e: Engine, cfg: Config, s: System, ev: Event, k: nat)
    requires AttemptReady(cfg, s, ev) && ApplicationPlan(s.store, ev).Rebuild? && 0 < k < |EventCommits(s.store, ev)|
    ensures Rebuilding(s, Run(e, s.store, EventCommits(s.store, ev)[..k]))
  {
    RebuildCommitsInStages(s.store, ev);
    var before, tail := BeforeInstall(ev, s.store.queue), RebuildTail(ev);
    if k <= |before| {
      assert (before + tail)[..k] == before[..k];
      BeforeInstallStage(e, cfg, s, ev, k);
    } else {
      assert (before + tail)[..k] == before + [tail[0]];
      RunThenOne(e, s.store, before, tail[0]);
      AfterInstall(e, cfg, s, ev, Writes(HistoryFor(ev).value));
    }
  }

  lemma {:induction false} RebuildInterruptionKeepsInv(e: Engine, cfg: Config, s: System, ev: Event, k: nat)
    requires AttemptReady(cfg, s, ev) && ApplicationPlan(s.store, ev).Rebuild? && 0 < k < |EventCommits(s.store, ev)|
    ensures Inv(cfg, Step(e, s, AttemptEvent(ev, k)))
  {
    var cs := EventCommits(s.store, ev)[..k];
    InterruptedStep(e, s, ev, cs);
    RebuildStopped(e, cfg, s, ev, k);
    var st := Run(e, s.store, cs);
    StillRebuildingIsInv(cfg, s, ev, st, Stopped(e, s, ev, k, st));
  }

  /** The whole rebuild, in its two forms. */
  lemma {:induction false} RebuildResult(e: Engine, st: Store, ev: Event)
    ensures var before := BeforeInstall(ev, st.queue); var mid := Run(e, st, before);
      Run(e, st, before + RebuildTail(ev)) ==
        match HistoryFor(ev)
        case None => Do(e, mid, SaveCheckpoint(ev.view))
        case Some(history) => Do(e, Do(e, mid, InstallRebuild(Writes(history))), SaveRebuiltCheckpoint(ev.view))
  {
    var before, tail := BeforeInstall(ev, st.queue), RebuildTail(ev);
    RunThenOne(e, st, before, tail[0]);
    if HistoryFor(ev).Some? {
      RunThenOne(e, st, before + [tail[0]], tail[1]);
      assert before + tail == before + [tail[0]] + [tail[1]];
    }
  }

  /** What a complete rebuild leaves in the control store and the queue. */
  ghost predicate Rebuilt(s: System, ev: Event, st: Store)
  {
    && st.control.checkpoint == ev.view && (st.queue == s.store.queue || st.queue == [])
    && ValidTracking(st.control.tracking) && InOrder(s.committed, st.control.tracking.order, st.queue)
    && Evolves(s.store.control.tracking, st.control.tracking)
    && AllUnpublished(st)
  }

  /** Without history the flag stays for the next event. */
  lemma {:induction false} RebuiltWithoutHistory(e: Engine, cfg: Config, s: System, ev: Event, mid: Store)
    requires AttemptReady(cfg, s, ev) && Displacing(s, mid, |s.store.queue|)
    ensures Rebuilt(s, ev, Do(e, mid, SaveCheckpoint(ev.view)))
  {
    SavedViewKeepsUnpublished(s.store, mid, ev, Do(e, mid, SaveCheckpoint(ev.view)));
  }

  lemma {:induction false} RebuiltWithHistory(e: Engine, s: System, ev: Event, mid: Store, replayed: seq<Write>)
    requires Displacing(s, mid, |s.store.queue|)
    ensures Rebuilt(s, ev, Do(e, Do(e, mid, InstallRebuild(replayed)), SaveRebuiltCheckpoint(ev.view)))
  {
    InstallLosesNothing(e, s, mid, replayed);
    assert QueuedWrites([]) == [];
  }

  lemma {:induction false} RebuiltStore(e: Engine, cfg: Config, s: System, ev: Event, mid: Store)
    requires AttemptReady(cfg, s, ev) && Displacing(s, mid, |s.store.queue|)
    ensures var st := if HistoryFor(ev).None? then Do(e, mid, SaveCheckpoint(ev.view))
                      else Do(e, Do(e, mid, InstallRebuild(Writes(HistoryFor(ev).value))),
                              SaveRebuiltCheckpoint(ev.view));
      Rebuilt(s, ev, st)
  {
    if HistoryFor(ev).None? {
      RebuiltWithoutHistory(e, cfg, s, ev, mid);
    } else {
      RebuiltWithHistory(e, s, ev, mid, Writes(HistoryFor(ev).value));
    }
  }

  lemma {:induction false} RebuildCompletionKeepsInv(e: Engine, cfg: Config, s: System, ev: Event)
    requires AttemptReady(cfg, s, ev) && ApplicationPlan(s.store, ev).Rebuild?
    ensures Inv(cfg, Step(e, s, AttemptEvent(ev, |EventCommits(s.store, ev)|)))
  {
    var before := BeforeInstall(ev, s.store.queue);
    RebuildCommitsInStages(s.store, ev);
    CompletedStep(e, s, ev, before + RebuildTail(ev));
    RebuildResult(e, s.store, ev);
    BeforeInstallDisplaces(e, cfg, s, ev);
    RebuiltStore(e, cfg, s, ev, Run(e, s.store, before));
    assert QueueBytes([]) == 0;
    IdleIsInv(cfg, Run(e, s.store, before + RebuildTail(ev)), Applied(s.process), None, s.committed);
  }

  /** An attempt that commits nothing. */
  lemma {:induction false} FailedAttemptKeepsInv(e: Engine, cfg: Config, s: System, ev: Event)
    requires Inv(cfg, s) && AttemptReady(cfg, s, ev) && |EventCommits(s.store, ev)| > 0
    ensures Inv(cfg, Step(e, s, AttemptEvent(ev, 0)))
  {
    assert EventCommits(s.store, ev)[..0] == [];
    IdleIsInv(cfg, s.store, s.process.(retrying := Some(ev)), s.interrupted, s.committed);
  }

  /** Every attempt at an event keeps the invariant. */
  lemma {:induction false} AttemptKeepsInv(e: Engine, cfg: Config, s: System, ev: Event, k: nat)
    requires Inv(cfg, s) && Enabled(e, cfg, s, AttemptEvent(ev, k))
    ensures Inv(cfg, Step(e, s, AttemptEvent(ev, k)))
  {
    AttemptStart(e, cfg, s, ev, k);
    if k == 0 && |EventCommits(s.store, ev)| > 0 {
      FailedAttemptKeepsInv(e, cfg, s, ev);
    } else if ApplicationPlan(s.store, ev).ApplyChanges? {
      if k == |DirectCommits(ev)| {
        DirectCompletionKeepsInv(e, cfg, s, ev);
      } else {
        DirectInterruptionKeepsInv(e, cfg, s, ev, k);
      }
    } else if k == |EventCommits(s.store, ev)| {
      RebuildCompletionKeepsInv(e, cfg, s, ev);
    } else {
      RebuildInterruptionKeepsInv(e, cfg, s, ev, k);
    }
  }
}
