/** What a complete attempt at an event does to the recorded statuses of our writes, and
    when they are true of the channel afterwards. */
module EventStatuses {
  import opened Wrappers
  import opened SqlHistory
  import opened WriteStatuses
  import opened Commits
  import opened EventEffects
  import opened Participant
  import opened QueueLemmas
  import opened Invariant
  import opened PublicationProofs
  import opened EventProofs
  import opened StatusTruth

  // ---------------------------------------------------------------------------
  // The tables after an event

  /** The transactions that leave the tables of our writes alone. */
  predicate NotTracking(c: Commit)
  {
    !c.SavePublication? && !c.HandleDisplacement? && !c.DisplaceQueued? && !c.UpdateStatuses?
  }

  lemma {:induction false} TrackingUnchanged(e: Engine, st: Store, cs: seq<Commit>)
    requires forall c :: c in cs ==> NotTracking(c)
    ensures Run(e, st, cs).control.tracking == st.control.tracking
    decreases |cs|
  {
    if cs != [] {
      assert cs[0] in cs;
      TrackingUnchanged(e, Do(e, st, cs[0]), cs[1..]);
    }
  }

  lemma {:induction false} ApplyingIsNotTracking(t: Target, history: seq<Inscription>)
    ensures forall c :: c in ApplyCommits(t, history) ==> NotTracking(c)
  {
    if history != [] {
      ApplyingIsNotTracking(t, history[1..]);
      if history[0].batch.Some? {
        ApplyingBatchIsNotTracking(t, history[0].msg, history[0].batch.value);
      }
    }
  }

  lemma {:induction false} ApplyingBatchIsNotTracking(t: Target, msg: MsgId, ws: seq<Write>)
    ensures forall c :: c in BatchCommits(t, msg, ws) ==> NotTracking(c)
  {
    if ws != [] {
      ApplyingBatchIsNotTracking(t, msg, ws[1..]);
    }
  }

  /** The tables after the status update of an event, with these inscriptions adopted. An
      update that contradicts our publications changes nothing. */
  function Updated(k: Tracking, ev: Event, adopted: seq<Inscription>): Tracking
  {
    match UpdateWriteStatuses(k, Messages(ev.finalized), Observe(ev.orphaned), Observe(adopted))
    case None => k
    case Some(k') => k'
  }

  lemma {:induction false} StatusCommitsUpdate(e: Engine, st: Store, ev: Event, adopted: seq<Inscription>)
    ensures Run(e, st, StatusCommits(ev, adopted)).control.tracking == Updated(st.control.tracking, ev, adopted)
  {
    var observed := ObserveCommits(ev.orphaned) + ObserveCommits(adopted);
    var c := UpdateStatuses(Messages(ev.finalized), Observe(ev.orphaned), Observe(adopted));
    ObserveCommitsAreControl(ev.orphaned);
    ObserveCommitsAreControl(adopted);
    TrackingUnchanged(e, st, observed);
    RunThenOne(e, st, observed, c);
  }

  lemma {:induction false} DirectTracking(e: Engine, st: Store, ev: Event)
    ensures Run(e, st, DirectCommits(ev)).control.tracking == Updated(st.control.tracking, ev, ev.adopted)
  {
    var applied := ApplyCommits(LibAndLive, ev.finalized) + ApplyCommits(LiveOnly, ev.adopted);
    ApplyingIsNotTracking(LibAndLive, ev.finalized);
    ApplyingIsNotTracking(LiveOnly, ev.adopted);
    TrackingUnchanged(e, st, applied);
    RunConcat(e, st, applied, StatusCommits(ev, ev.adopted));
    StatusCommitsUpdate(e, Run(e, st, applied), ev, ev.adopted);
    RunThenOne(e, st, applied + StatusCommits(ev, ev.adopted), SaveCheckpoint(ev.view));
  }

  /** Each of the writes displaced in turn, because the history below it changed. */
  function DisplaceWrites(k: Tracking, ws: seq<Write>): Tracking
    decreases |ws|
  {
    if ws == [] then k else DisplaceWrites(RecordDisplacement(k, ws[0], PendingWriteInvalidated), ws[1..])
  }

  lemma {:induction false} DisplaceTracking(e: Engine, st: Store, queue: seq<Queued>)
    ensures Run(e, st, DisplaceCommits(queue)).control.tracking
         == DisplaceWrites(st.control.tracking, QueuedWrites(queue))
    decreases |queue|
  {
    if queue != [] {
      DisplaceTracking(e, Do(e, st, DisplaceQueued(queue[0])), queue[1..]);
      assert QueuedWrites(queue)[1..] == QueuedWrites(queue[1..]);
    }
  }

  lemma {:induction false} PrepareTracking(e: Engine, st: Store, ev: Event, queue: seq<Queued>)
    ensures Run(e, st, PrepareCommits(ev, queue)).control.tracking
         == DisplaceWrites(st.control.tracking, QueuedWrites(queue))
  {
    var a, b, c := [RequireRebuild], DisplaceCommits(queue), ApplyCommits(LibOnly, ev.finalized);
    RunConcat(e, st, a, b);
    RunConcat(e, st, a + b, c);
    assert Run(e, st, a) == Run(e, Do(e, st, RequireRebuild), []);
    DisplaceTracking(e, Run(e, st, a), queue);
    ApplyingIsNotTracking(LibOnly, ev.finalized);
    TrackingUnchanged(e, Run(e, st, a + b), c);
  }

  lemma {:induction false} FinishTracking(e: Engine, st: Store, ev: Event)
    ensures Run(e, st, FinishCommits(ev)).control.tracking
         == Updated(st.control.tracking, ev, KnownHistory(ev))
  {
    if ev.chain.None? && !ev.available {
      StatusCommitsUpdate(e, st, ev, ev.adopted);
      RunThenOne(e, st, StatusCommits(ev, ev.adopted), SaveCheckpoint(ev.view));
    } else {
      var h := KnownHistory(ev);
      var rest := ReplayCommits([], h) + [InstallRebuild(Writes(h)), SaveRebuiltCheckpoint(ev.view)];
      assert FinishCommits(ev) == StatusCommits(ev, h) + rest;
      RunConcat(e, st, StatusCommits(ev, h), rest);
      StatusCommitsUpdate(e, st, ev, h);
      ReplayCommitsAreControl([], h);
      TrackingUnchanged(e, Run(e, st, StatusCommits(ev, h)), rest);
    }
  }

  /** What a rebuild passes to the status update: the whole new history if the event or
      the sequencer has it, otherwise what the event adopts. */
  function KnownHistory(ev: Event): seq<Inscription>
  {
    if ev.chain.Some? then ev.chain.value else if ev.available then ev.view.history else ev.adopted
  }

  /** The tables after a complete attempt: a rebuild displaces the queued writes first. */
  lemma {:induction false} EventUpdatesStatuses(e: Engine, st: Store, ev: Event)
    ensures Run(e, st, EventCommits(st, ev)).control.tracking ==
      if ApplicationPlan(st, ev).ApplyChanges? then Updated(st.control.tracking, ev, ev.adopted)
      else Updated(DisplaceWrites(st.control.tracking, QueuedWrites(st.queue)), ev, KnownHistory(ev))
  {
    if ApplicationPlan(st, ev).ApplyChanges? {
      DirectTracking(e, st, ev);
    } else {
      RebuildDisplacesQueue(st, ev);
      RunConcat(e, st, PrepareCommits(ev, st.queue), FinishCommits(ev));
      PrepareTracking(e, st, ev, st.queue);
      FinishTracking(e, Run(e, st, PrepareCommits(ev, st.queue)), ev);
    }
  }

  // ---------------------------------------------------------------------------
  // Queued writes

  /** Displaced by this event, because the history below it changed, and not handled. */
  ghost predicate JustDisplaced(k: Tracking, k': Tracking, w: Write)
  {
    && w.tx in k'.row && k'.row[w.tx].status == Displaced && !k'.row[w.tx].handled
    && k'.row[w.tx].displacement.Some?
    && var d := k'.row[w.tx].displacement.value;
    d.id >= k.nextId && d.reason == PendingWriteInvalidated && d.payload == w
  }

  lemma {:induction false} DisplacingWrites(k: Tracking, ws: seq<Write>)
    requires DistinctIds(ws) && forall w :: w in ws ==> w.tx !in k.row
    ensures var k' := DisplaceWrites(k, ws);
      && k'.locals == k.locals && k.nextId <= k'.nextId
      && (forall w :: w in ws ==> JustDisplaced(k, k', w))
      && (forall tx :: tx !in Ids(ws) ==> (tx in k'.row <==> tx in k.row))
      && (forall tx :: tx in k.row ==> tx in k'.row && k'.row[tx] == k.row[tx])
    decreases |ws|
  {
    if ws != [] {
      var w, rest := ws[0], ws[1..];
      var k1 := RecordDisplacement(k, w, PendingWriteInvalidated);
      assert ws == [w] + rest;
      assert JustDisplaced(k, k1, w);
      IdsOfOthers(rest, w.tx);
      IdsContain(rest);
      forall x | x in rest ensures x.tx !in k1.row {
        var i :| 0 <= i < |rest| && rest[i] == x;
        assert ws[0].tx != ws[i + 1].tx;
      }
      DisplacingWrites(k1, rest);
      forall x | x in ws ensures JustDisplaced(k, DisplaceWrites(k, ws), x) {
        if x in rest {
          assert JustDisplaced(k1, DisplaceWrites(k, ws), x);
        }
      }
    }
  }

  /** Outside a rebuild no queued write has a row. */
  lemma {:induction false} QueuedHaveNoRow(cfg: Config, s: System, ev: Event, w: Write)
    requires AttemptReady(cfg, s, ev) && !s.store.control.rebuild && w in QueuedWrites(s.store.queue)
    ensures w.tx !in s.store.control.tracking.row && w.tx !in s.store.control.tracking.locals
    ensures w.tx !in Ids(Writes(s.store.control.checkpoint.finalized) + Writes(s.store.control.checkpoint.history))
  {
    assert Unpublished(s.store, w);
  }

  lemma {:induction false} QueueIsUnknown(cfg: Config, s: System, ev: Event, w: Write)
    requires AttemptReady(cfg, s, ev) && w in QueuedWrites(s.store.queue)
    ensures forall o :: o in Observe(KnownHistory(ev)) ==> o.write.tx != w.tx
    ensures forall o :: o in Observe(ev.view.history) || o in Observe(ev.finalized) ==> o.write.tx != w.tx
  {
    ObservedWrites(ev.view.history);
    ObservedWrites(ev.adopted);
    ObservedWrites(ev.finalized);
    IdsContain(Writes(ev.view.history));
    IdsContain(Writes(ev.adopted));
    IdsContain(Writes(ev.finalized));
  }

  /** A complete rebuild leaves every write that was queued displaced, with its own
      payload, and open for the application. */
  lemma {:induction false} QueuedWritesAreDisplaced(e: Engine, cfg: Config, s: System, ev: Event, w: Write)
    requires AttemptReady(cfg, s, ev) && !s.store.control.rebuild && ApplicationPlan(s.store, ev).Rebuild?
    requires w in QueuedWrites(s.store.queue)
    ensures JustDisplaced(s.store.control.tracking, Run(e, s.store, EventCommits(s.store, ev)).control.tracking, w)
  {
    var k, ws := s.store.control.tracking, QueuedWrites(s.store.queue);
    var k1, msgs, os := DisplaceWrites(k, ws), Messages(ev.finalized), Observe(ev.orphaned);
    QueueIsDistinct(s.committed, k.order, s.store.queue);
    forall x | x in ws ensures x.tx !in k.row {
      QueuedHaveNoRow(cfg, s, ev, x);
    }
    QueuedHaveNoRow(cfg, s, ev, w);
    DisplacingWrites(k, ws);
    QueueIsUnknown(cfg, s, ev, w);
    EventUpdatesStatuses(e, s.store, ev);
    if UpdateWriteStatuses(k1, msgs, os, Observe(KnownHistory(ev))).Some? {
      UpdatingLeavesUnpublished(k1, msgs, os, Observe(KnownHistory(ev)), w.tx);
    }
  }

  // ---------------------------------------------------------------------------
  // Truth

  /** What an attempt passes to the status update as adopted. */
  function Adopts(st: Store, ev: Event): seq<Inscription>
  {
    if ApplicationPlan(st, ev).ApplyChanges? then ev.adopted else KnownHistory(ev)
  }

  lemma {:induction false} DisplacingKeepsTruth(k: Tracking, c: Channel, ws: seq<Write>)
    requires StatusesTrue(k, c) && DistinctIds(ws)
    requires forall w :: w in ws ==> w.tx !in k.row && w.tx !in k.locals && !Seen(c.finalized, w) && !Seen(c.history, w)
    ensures StatusesTrue(DisplaceWrites(k, ws), c)
    decreases |ws|
  {
    if ws != [] {
      var k1 := RecordDisplacement(k, ws[0], PendingWriteInvalidated);
      assert ws[0] in ws;
      DisplacingKeepsStatusesTrue(k, c, ws[0]);
      forall w | w in ws[1..] ensures w.tx !in k1.row && w in ws {
        var i :| 0 <= i < |ws[1..]| && ws[1..][i] == w;
        assert ws[0].tx != ws[i + 1].tx && ws[i + 1] in ws;
      }
      DisplacingKeepsTruth(k1, c, ws[1..]);
    }
  }

  lemma {:induction false} UnknownIsNotSeen(history: seq<Inscription>, w: Write)
    requires w.tx !in Ids(Writes(history))
    ensures !Seen(Observe(history), w)
  {
    ObservedWrites(history);
    IdsContain(Writes(history));
  }

  /** From true statuses, outside a rebuild, a complete attempt at an event that accounts
      for the change of the history leads to true statuses exactly when none of our
      orphaned writes returns unnoticed. Writes that a rebuild displaces are included. */
  lemma {:induction false} AttemptKeepsStatusesTrueExactlyWhenNoticed(e: Engine, cfg: Config, s: System, ev: Event)
    requires AttemptReady(cfg, s, ev) && !s.store.control.rebuild
    requires StatusesTrue(s.store.control.tracking, ChannelAt(s.store.control.checkpoint))
    requires Accounts(s.store.control.checkpoint, ev, Adopts(s.store, ev))
    requires NamesPayloads(s.store.control.tracking, ev.finalized)
    requires UnknownUnlessPublished(s.store.control.tracking, ChannelAt(ev.view))
    ensures var k, os, as_ := s.store.control.tracking, Observe(ev.orphaned), Observe(Adopts(s.store, ev));
      StatusesTrue(Run(e, s.store, EventCommits(s.store, ev)).control.tracking, ChannelAt(ev.view))
      <==> forall tx :: !ReturnsUnnoticed(k, Messages(ev.finalized), os, as_, ChannelAt(ev.view), tx)
  {
    var k, v := s.store.control.tracking, s.store.control.checkpoint;
    EventUpdatesStatuses(e, s.store, ev);
    if ApplicationPlan(s.store, ev).ApplyChanges? {
      UpdateSucceeds(k, s.store, ev, Adopts(s.store, ev));
      EventKeepsStatusesTrueExactlyWhenNoticed(k, v, ev, Adopts(s.store, ev));
    } else {
      RebuildKeepsStatusesTrue(cfg, s, ev, Adopts(s.store, ev));
    }
  }

  /** The contract rules out a contradiction of our publications. */
  lemma {:induction false} UpdateSucceeds(k: Tracking, st: Store, ev: Event, adopted: seq<Inscription>)
    requires SequencerContract(st, ev) && k.locals == st.control.tracking.locals
    ensures UpdateWriteStatuses(k, Messages(ev.finalized), Observe(ev.orphaned), Observe(adopted)).Some?
  {
    UpdateFailsExactlyWhenContradicted(k, Messages(ev.finalized), Observe(ev.orphaned), Observe(adopted));
  }

  lemma {:induction false} QueueIsNotSeen(cfg: Config, s: System, ev: Event, w: Write)
    requires AttemptReady(cfg, s, ev) && !s.store.control.rebuild && w in QueuedWrites(s.store.queue)
    ensures var c, c' := ChannelAt(s.store.control.checkpoint), ChannelAt(ev.view);
      !Seen(c.finalized, w) && !Seen(c.history, w) && !Seen(c'.finalized, w) && !Seen(c'.history, w)
  {
    var v := s.store.control.checkpoint;
    IdsConcat(Writes(v.finalized), Writes(v.history));
    QueuedHaveNoRow(cfg, s, ev, w);
    UnknownIsNotSeen(v.finalized, w);
    UnknownIsNotSeen(v.history, w);
    QueueIsUnknown(cfg, s, ev, w);
    ObservedOfBoth(v.finalized, ev.finalized, w);
  }

  lemma {:induction false} DisplacedAreUnknown(k: Tracking, ws: seq<Write>, c: Channel)
    requires UnknownUnlessPublished(k, c) && DistinctIds(ws)
    requires forall w :: w in ws ==> w.tx !in k.row && !Seen(c.finalized, w) && !Seen(c.history, w)
    ensures UnknownUnlessPublished(DisplaceWrites(k, ws), c)
  {
    var k1 := DisplaceWrites(k, ws);
    DisplacingWrites(k, ws);
    IdsContain(ws);
    forall tx | tx in k1.row && NeverPublished(k1, tx)
      ensures var w := k1.row[tx].displacement.value.payload; !Seen(c.finalized, w) && !Seen(c.history, w)
    {
      if tx in Ids(ws) {
        var w :| w in ws && w.tx == tx;
        assert JustDisplaced(k, k1, w);
      }
    }
  }

  /** Writes without a row or publication, that the channel has not seen. */
  ghost predicate Fresh(k: Tracking, c: Channel, ws: seq<Write>)
  {
    && DistinctIds(ws)
    && forall w :: w in ws ==> w.tx !in k.row && w.tx !in k.locals && !Seen(c.finalized, w) && !Seen(c.history, w)
  }

  lemma {:induction false} QueueIsFresh(cfg: Config, s: System, ev: Event)
    requires AttemptReady(cfg, s, ev) && !s.store.control.rebuild
    ensures var k, ws := s.store.control.tracking, QueuedWrites(s.store.queue);
      Fresh(k, ChannelAt(s.store.control.checkpoint), ws) && Fresh(k, ChannelAt(ev.view), ws)
  {
    QueueIsDistinct(s.committed, s.store.control.tracking.order, s.store.queue);
    forall w | w in QueuedWrites(s.store.queue)
      ensures w.tx !in s.store.control.tracking.row && w.tx !in s.store.control.tracking.locals
      ensures !Seen(ChannelAt(s.store.control.checkpoint).finalized, w)
      ensures !Seen(ChannelAt(s.store.control.checkpoint).history, w)
      ensures !Seen(ChannelAt(ev.view).finalized, w) && !Seen(ChannelAt(ev.view).history, w)
    {
      QueuedHaveNoRow(cfg, s, ev, w);
      QueueIsNotSeen(cfg, s, ev, w);
    }
  }

  lemma {:induction false} DisplacedQueueIsTrue(k: Tracking, v: View, ev: Event, ws: seq<Write>)
    requires ValidTracking(k) && StatusesTrue(k, ChannelAt(v)) && NamesPayloads(k, ev.finalized)
    requires UnknownUnlessPublished(k, ChannelAt(ev.view)) && Fresh(k, ChannelAt(v), ws)
    requires Fresh(k, ChannelAt(ev.view), ws)
    ensures var k1 := DisplaceWrites(k, ws);
      && ValidTracking(k1) && StatusesTrue(k1, ChannelAt(v))
      && NamesPayloads(k1, ev.finalized) && UnknownUnlessPublished(k1, ChannelAt(ev.view))
      && k1.locals == k.locals
  {
    DisplacingKeepsTruth(k, ChannelAt(v), ws);
    DisplacedIsValid(k, ws);
    DisplacedAreUnknown(k, ws, ChannelAt(ev.view));
    DisplacingWrites(k, ws);
  }

  /** Displacing unpublished writes concerns no row of a published one. */
  lemma {:induction false} DisplacedReturnAlike(k: Tracking, ws: seq<Write>, msgs: seq<MsgId>, os: seq<Observed>,
                                                as_: seq<Observed>, c: Channel, tx: TxId)
    requires ValidTracking(k) && DistinctIds(ws) && forall w :: w in ws ==> w.tx !in k.row
    ensures ReturnsUnnoticed(DisplaceWrites(k, ws), msgs, os, as_, c, tx) <==> ReturnsUnnoticed(k, msgs, os, as_, c, tx)
  {
    DisplacingWrites(k, ws);
  }

  lemma {:induction false} RebuildKeepsStatusesTrue(cfg: Config, s: System, ev: Event, adopted: seq<Inscription>)
    requires AttemptReady(cfg, s, ev) && !s.store.control.rebuild
    requires StatusesTrue(s.store.control.tracking, ChannelAt(s.store.control.checkpoint))
    requires Accounts(s.store.control.checkpoint, ev, adopted)
    requires NamesPayloads(s.store.control.tracking, ev.finalized)
    requires UnknownUnlessPublished(s.store.control.tracking, ChannelAt(ev.view))
    ensures var k, os, as_ := s.store.control.tracking, Observe(ev.orphaned), Observe(adopted);
      StatusesTrue(Updated(DisplaceWrites(k, QueuedWrites(s.store.queue)), ev, adopted), ChannelAt(ev.view))
      <==> forall tx :: !ReturnsUnnoticed(k, Messages(ev.finalized), os, as_, ChannelAt(ev.view), tx)
  {
    var k, v, ws := s.store.control.tracking, s.store.control.checkpoint, QueuedWrites(s.store.queue);
    QueueIsFresh(cfg, s, ev);
    DisplacedQueueIsTrue(k, v, ev, ws);
    UpdateSucceeds(DisplaceWrites(k, ws), s.store, ev, adopted);
    EventKeepsStatusesTrueExactlyWhenNoticed(DisplaceWrites(k, ws), v, ev, adopted);
    forall tx { DisplacedReturnAlike(k, ws, Messages(ev.finalized), Observe(ev.orphaned), Observe(adopted),
                                     ChannelAt(ev.view), tx); }
  }

  lemma {:induction false} ObservedOfBoth(xs: seq<Inscription>, ys: seq<Inscription>, w: Write)
    ensures Seen(Observe(xs + ys), w) ==> Seen(Observe(xs), w) || Seen(Observe(ys), w)
  {
    if Seen(Observe(xs + ys), w) {
      var o :| o in Observe(xs + ys) && o.write == w;
      ObservedExactlyWithin(xs + ys, o);
      ObservedExactlyWithin(xs, o);
      ObservedExactlyWithin(ys, o);
    }
  }

  lemma {:induction false} DisplacedIsValid(k: Tracking, ws: seq<Write>)
    requires ValidTracking(k) && DistinctIds(ws) && forall w :: w in ws ==> w.tx !in k.row
    ensures ValidTracking(DisplaceWrites(k, ws))
    decreases |ws|
  {
    if ws != [] {
      var k1 := RecordDisplacement(k, ws[0], PendingWriteInvalidated);
      assert ws[0] in ws;
      DisplacingIsValid(k, ws[0], PendingWriteInvalidated);
      forall w | w in ws[1..] ensures w.tx !in k1.row {
        var i :| 0 <= i < |ws[1..]| && ws[1..][i] == w;
        assert ws[0].tx != ws[i + 1].tx && ws[i + 1] in ws;
      }
      DisplacedIsValid(k1, ws[1..]);
    }
  }
}
