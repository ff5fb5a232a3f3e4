/** What an event leads to, in terms of its own fields: when it is applied directly, and
    when a rebuild finishes. */
module EventOutcomes {
  import opened Wrappers
  import opened SqlHistory
  import opened WriteStatuses
  import opened Commits
  import opened Participant
  import opened QueueLemmas
  import opened Invariant
  import opened EventProofs

  // ---------------------------------------------------------------------------
  // The plan

  /** LIVE has this write with this content, or its rejection is on record. */
  predicate Settles(st: Store, msg: MsgId, w: Write)
  {
    (w.tx in st.live.applied && st.live.applied[w.tx] == w.content) || (msg, Some(w.tx)) in st.control.rejected
  }

  /** Every write of every decoded inscription that the event adopts or finalizes is
      settled. */
  ghost predicate AllSettled(st: Store, ev: Event)
  {
    forall i: Inscription, w: Write {:trigger w in BatchWrites(i)} ::
      (i in ev.adopted || i in ev.finalized) && i.batch.Some? && w in BatchWrites(i) ==> Settles(st, i.msg, w)
  }

  /** An event is applied directly exactly when no rebuild is pending, it orphans nothing,
      and nothing is queued or all its writes are settled. A rebuild displaces the whole
      queue. */
  lemma {:induction false} DirectExactlyWhenSettled(st: Store, ev: Event)
    ensures ApplicationPlan(st, ev).ApplyChanges?
       <==> !st.control.rebuild && ev.orphaned == [] && (st.queue == [] || AllSettled(st, ev))
    ensures ApplicationPlan(st, ev).Rebuild? ==> ApplicationPlan(st, ev).displaced == st.queue
  {
    var all := ev.adopted + ev.finalized;
    if AllSettled(st, ev) {
      forall o | o in Observe(all) ensures LiveProcessed(st, o) {
        ObservedExactlyWithin(all, o);
      }
    } else {
      var i: Inscription, w: Write :|
        (i in ev.adopted || i in ev.finalized) && i.batch.Some? && w in BatchWrites(i) && !Settles(st, i.msg, w);
      ObservedExactlyWithin(all, Observed(i.msg, w));
      assert i in all;
      assert !LiveProcessed(st, Observed(i.msg, w));
    }
  }

  // ---------------------------------------------------------------------------
  // The end of a complete attempt

  /** The rebuild flag is set after a complete attempt exactly when a rebuild was needed
      and neither the event nor the sequencer had the history. Otherwise a rebuild has
      emptied the queue and replaced LIVE by LIB with the new history on top. */
  lemma {:induction false} RebuildFinishesExactlyWhenHistoryIsKnown(e: Engine, cfg: Config, s: System, ev: Event)
    requires AttemptReady(cfg, s, ev)
    ensures var st := Run(e, s.store, EventCommits(s.store, ev));
      var rebuilds := ApplicationPlan(s.store, ev).Rebuild?;
      && st.control.checkpoint == ev.view
      && (st.control.rebuild <==> rebuilds && ev.chain.None? && !ev.available)
      && (rebuilds && !st.control.rebuild ==>
            st.queue == [] && st.live == Replay(e, st.lib, Writes(ev.view.history)))
      && (!rebuilds || st.control.rebuild ==> st.queue == s.store.queue)
  {
    if ApplicationPlan(s.store, ev).ApplyChanges? {
      DirectLeavesQueue(e, s.store, ev);
    } else {
      RebuildLeaves(e, cfg, s, ev);
    }
  }

  lemma {:induction false} DirectLeavesQueue(e: Engine, st: Store, ev: Event)
    requires ValidTracking(st.control.tracking) && AllUnpublished(st) && SequencerContract(st, ev)
    ensures var st' := Run(e, st, DirectCommits(ev));
      st'.control.checkpoint == ev.view && st'.control.rebuild == st.control.rebuild && st'.queue == st.queue
  {
    var mid := DirectResult(e, st, ev);
  }

  /** The last commits of a rebuild, taken after every queued write was displaced. */
  ghost function Completed(e: Engine, mid: Store, ev: Event): Store
  {
    match HistoryFor(ev)
    case None => Do(e, mid, SaveCheckpoint(ev.view))
    case Some(history) => Do(e, Do(e, mid, InstallRebuild(Writes(history))), SaveRebuiltCheckpoint(ev.view))
  }

  lemma {:induction false} CompletedLeaves(e: Engine, mid: Store, ev: Event)
    requires mid.control.rebuild && (ev.chain.Some? ==> ev.chain.value == ev.view.history)
    ensures var st := Completed(e, mid, ev); var unknown := ev.chain.None? && !ev.available;
      && st.control.checkpoint == ev.view && st.control.rebuild == unknown
      && (!unknown ==> st.queue == [] && st.live == Replay(e, st.lib, Writes(ev.view.history)))
      && (unknown ==> st.queue == mid.queue)
  {
  }

  lemma {:induction false} CompletedStore(e: Engine, st: Store, ev: Event)
    requires ApplicationPlan(st, ev).Rebuild?
    ensures Run(e, st, EventCommits(st, ev)) == Completed(e, Run(e, st, BeforeInstall(ev, st.queue)), ev)
  {
    RebuildCommitsInStages(st, ev);
    RebuildResult(e, st, ev);
  }

  lemma {:induction false} AllDisplacedFirst(e: Engine, cfg: Config, s: System, ev: Event)
    requires AttemptReady(cfg, s, ev)
    ensures var mid := Run(e, s.store, BeforeInstall(ev, s.store.queue));
      mid.control.rebuild && mid.queue == s.store.queue
  {
    BeforeInstallDisplaces(e, cfg, s, ev);
  }

  lemma {:induction false} RebuildLeaves(e: Engine, cfg: Config, s: System, ev: Event)
    requires AttemptReady(cfg, s, ev) && ApplicationPlan(s.store, ev).Rebuild?
    ensures var st := Run(e, s.store, EventCommits(s.store, ev)); var unknown := ev.chain.None? && !ev.available;
      && st.control.checkpoint == ev.view && st.control.rebuild == unknown
      && (!unknown ==> st.queue == [] && st.live == Replay(e, st.lib, Writes(ev.view.history)))
      && (unknown ==> st.queue == s.store.queue)
  {
    AllDisplacedFirst(e, cfg, s, ev);
    CompletedStore(e, s.store, ev);
    CompletedLeaves(e, Run(e, s.store, BeforeInstall(ev, s.store.queue)), ev);
  }
}
