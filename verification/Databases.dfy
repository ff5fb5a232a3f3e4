/** The participant-local databases. Every method that commits is proved to commit
    exactly the transactions of a list, in order, or a prefix of it when a commit
    fails. */
module DatabasesClass {
  import opened Wrappers
  import opened SqlHistory
  import opened WriteStatuses
  import opened Commits
  import opened Participant
  import opened QueueLemmas

  datatype Outcome = Done | StorageFailure | InvalidLocalState

  datatype Usage = Usage(writes: nat, bytes: nat)

  datatype LocalError = PublishPending | SqlFailed | TooLarge | DuplicateId | CommitFailed

  /** What the application is told about a displacement, with the statements to retry. */
  datatype Displaced = DisplacedWrite(tx: TxId, id: nat, reason: Reason, transaction: Statements)

  /** The entry for the row of `tx`. */
  ghost predicate Describes(e: Engine, k: Tracking, d: Displaced, tx: TxId)
  {
    && d.tx == tx && tx in k.row && k.row[tx].displacement.Some?
    && var r := k.row[tx].displacement.value;
    d.id == r.id && d.reason == r.reason && d.transaction == e.statements(r.payload.content)
  }

  /** What applying a channel write reports. */
  datatype Verdict = Accepted | Rejected | Failed

  class Databases {
    const engine: Engine
    const maxPendingWrites: nat
    const maxPendingBytes: nat

    var lib: Replica
    var live: Replica
    var queue: seq<Queued>
    var control: Control

    /** Cached to avoid scanning the queue on every write. */
    var pendingPublishUsage: Option<Usage>

    /** How many more transactions will commit before the storage fails. */
    var budget: nat

    /** The state at the start, and every transaction committed since. */
    ghost const start: Store
    ghost var log: seq<Commit>

    function Durable(): Store
      reads this
    {
      Store(lib, live, queue, control)
    }

    ghost predicate Valid()
      reads this
    {
      && Durable() == Run(engine, start, log)
      && (pendingPublishUsage.Some? ==> pendingPublishUsage.value == Usage(|queue|, QueueBytes(queue)))
    }

    constructor (engine: Engine, maxPendingWrites: nat, maxPendingBytes: nat, st: Store, budget: nat)
      ensures Valid() && Durable() == st && log == [] && start == st
      ensures this.engine == engine && this.maxPendingWrites == maxPendingWrites
      ensures this.maxPendingBytes == maxPendingBytes
      ensures pendingPublishUsage.None? && this.budget == budget
    {
      this.engine, this.maxPendingWrites, this.maxPendingBytes := engine, maxPendingWrites, maxPendingBytes;
      lib, live, queue, control := st.lib, st.live, st.queue, st.control;
      pendingPublishUsage := None;
      this.budget := budget;
      start, log := st, [];
    }

    /** The log grew by a prefix of `cs`, by all of it exactly when `done`. */
    twostate predicate Advanced(cs: seq<Commit>, done: bool)
      reads this
    {
      && |old(log)| <= |log| <= |old(log)| + |cs|
      && log == old(log) + cs[..|log| - |old(log)|]
      && (done <==> |log| == |old(log)| + |cs|)
    }

    /** Every unit of the budget that was used stands for a committed transaction, so a
        storage failure, which needs an empty budget, cannot be invented. */
    ghost predicate Spent(budget0: nat, log0: seq<Commit>)
      reads this
    {
      budget0 - budget <= |log| - |log0|
    }

    lemma LogNext(c: Commit)
      ensures Run(engine, start, log + [c]) == Do(engine, Run(engine, start, log), c)
    {
      RunConcat(engine, start, log, [c]);
      var mid := Run(engine, start, log);
      assert Run(engine, mid, [c]) == Run(engine, Do(engine, mid, c), []);
    }

    // -------------------------------------------------------------------------
    // Control store

    method PersistCheckpoint(view: View) returns (r: Outcome)
      requires Valid()
      modifies this
      ensures Valid() && Advanced([SaveCheckpoint(view)], r.Done?) && !r.InvalidLocalState?
      ensures r.Done? ==> control == old(control).(checkpoint := view)
      ensures Spent(old(budget), old(log)) && (r.StorageFailure? ==> budget == 0)
      ensures control.tracking == old(control).tracking
    {
      if budget == 0 {
        return StorageFailure;
      }
      budget := budget - 1;
      LogNext(SaveCheckpoint(view));
      log := log + [SaveCheckpoint(view)];
      control := control.(checkpoint := view);
      r := Done;
    }

    method PersistRebuiltCheckpoint(view: View) returns (r: Outcome)
      requires Valid()
      modifies this
      ensures Valid() && Advanced([SaveRebuiltCheckpoint(view)], r.Done?) && !r.InvalidLocalState?
      ensures r.Done? ==> control == old(control).(checkpoint := view, rebuild := false)
      ensures Spent(old(budget), old(log)) && (r.StorageFailure? ==> budget == 0)
      ensures control.tracking == old(control).tracking
    {
      if budget == 0 {
        return StorageFailure;
      }
      budget := budget - 1;
      LogNext(SaveRebuiltCheckpoint(view));
      log := log + [SaveRebuiltCheckpoint(view)];
      control := control.(checkpoint := view, rebuild := false);
      r := Done;
    }

    method RequireRebuild() returns (r: Outcome)
      requires Valid()
      modifies this
      ensures Valid() && Advanced([Commit.RequireRebuild], r.Done?) && !r.InvalidLocalState?
      ensures Spent(old(budget), old(log)) && (r.StorageFailure? ==> budget == 0)
      ensures control.tracking == old(control).tracking
    {
      if budget == 0 {
        return StorageFailure;
      }
      budget := budget - 1;
      LogNext(Commit.RequireRebuild);
      log := log + [Commit.RequireRebuild];
      control := control.(rebuild := true);
      r := Done;
    }

    method RecordPendingWriteDisplacement(q: Queued) returns (r: Outcome)
      requires Valid()
      modifies this
      ensures Valid() && Advanced([DisplaceQueued(q)], r.Done?) && !r.InvalidLocalState?
      ensures Spent(old(budget), old(log)) && (r.StorageFailure? ==> budget == 0)
      ensures control.tracking.locals == old(control).tracking.locals
    {
      if budget == 0 {
        return StorageFailure;
      }
      budget := budget - 1;
      LogNext(DisplaceQueued(q));
      log := log + [DisplaceQueued(q)];
      control := control.(tracking := RecordDisplacement(control.tracking, q.write, PendingWriteInvalidated));
      r := Done;
    }

    /** One transaction over our own writes: finalize, then orphan, then adopt. An
        orphan that contradicts our publication aborts it. */
    method UpdateWriteStatuses(finalized: seq<MsgId>, orphaned: seq<Observed>, adopted: seq<Observed>)
      returns (r: Outcome)
      requires Valid()
      modifies this
      ensures Valid() && Advanced([UpdateStatuses(finalized, orphaned, adopted)], r.Done?)
      ensures r.InvalidLocalState? <==>
        WriteStatuses.UpdateWriteStatuses(old(control).tracking, finalized, orphaned, adopted).None?
      ensures Spent(old(budget), old(log)) && (r.StorageFailure? ==> budget == 0)
    {
      var k := control.tracking;
      for i := 0 to |finalized|
        invariant FinalizeAll(control.tracking, finalized) == FinalizeAll(k, finalized[i..])
        invariant control == old(control) && Durable() == old(Durable()) && log == old(log)
      {
        assert finalized[i..][1..] == finalized[i + 1..];
        k := FinalizeMessage(k, finalized[i]);
      }
      ghost var k1 := k;
      for i := 0 to |orphaned|
        invariant OrphanAll(k1, orphaned) == OrphanAll(k, orphaned[i..])
        invariant control == old(control) && Durable() == old(Durable()) && log == old(log)
      {
        assert orphaned[i..][1..] == orphaned[i + 1..];
        var next := OrphanWrite(k, orphaned[i]);
        if next.None? {
          return InvalidLocalState;
        }
        k := next.value;
      }
      ghost var k2 := k;
      for i := 0 to |adopted|
        invariant AdoptAll(k2, adopted) == AdoptAll(k, adopted[i..])
        invariant control == old(control) && Durable() == old(Durable()) && log == old(log)
      {
        assert adopted[i..][1..] == adopted[i + 1..];
        k := WriteStatuses.AdoptWrite(k, adopted[i]);
      }
      if budget == 0 {
        return StorageFailure;
      }
      budget := budget - 1;
      LogNext(UpdateStatuses(finalized, orphaned, adopted));
      log := log + [UpdateStatuses(finalized, orphaned, adopted)];
      control := control.(tracking := k);
      r := Done;
    }

    /** Records a rejection; `c` is the entry of the log that it accounts for. */
    method RecordRejectedWrite(msg: MsgId, tx: Option<TxId>, ghost c: Commit) returns (r: Outcome)
      requires Valid() && Do(engine, Durable(), c) == RejectIf(Durable(), true, msg, tx)
      modifies this
      ensures Valid() && Advanced([c], r.Done?) && !r.InvalidLocalState?
      ensures lib == old(lib) && live == old(live) && queue == old(queue)
      ensures control.tracking == old(control).tracking
      ensures Spent(old(budget), old(log)) && (r.StorageFailure? ==> budget == 0)
    {
      if budget == 0 {
        return StorageFailure;
      }
      budget := budget - 1;
      LogNext(c);
      log := log + [c];
      control := control.(rejected := control.rejected + {(msg, tx)});
      r := Done;
    }

    /** A transaction that has nothing to commit. */
    ghost method NothingToCommit(c: Commit)
      requires Valid() && Do(engine, Durable(), c) == Durable()
      modifies this`log
      ensures Valid() && log == old(log) + [c]
    {
      LogNext(c);
      log := log + [c];
    }

    method MarkDisplacementHandled(tx: TxId, id: nat) returns (r: Outcome)
      requires Valid()
      modifies this
      ensures Valid() && Advanced([HandleDisplacement(tx, id)], r.Done?) && !r.InvalidLocalState?
      ensures Spent(old(budget), old(log)) && (r.StorageFailure? ==> budget == 0)
      ensures r.Done? <==> old(budget) > 0
    {
      if budget == 0 {
        return StorageFailure;
      }
      budget := budget - 1;
      LogNext(HandleDisplacement(tx, id));
      log := log + [HandleDisplacement(tx, id)];
      control := control.(tracking := MarkHandled(control.tracking, tx, id));
      r := Done;
    }

    /** The ids of the unhandled rows in sequence order. */
    method UnhandledIds() returns (txs: seq<TxId>)
      ensures txs == Unhandled(control.tracking, control.tracking.order)
    {
      var k := control.tracking;
      var order := k.order;
      txs := [];
      assert order[0..] == order;
      for i := 0 to |order|
        invariant txs + Unhandled(k, order[i..]) == Unhandled(k, order)
      {
        assert order[i..][1..] == order[i + 1..];
        if IsUnhandled(k, order[i]) {
          txs := txs + [order[i]];
        }
      }
    }

    /** The unhandled displacements in sequence order, with what the rows say of them. */
    method UnhandledDisplacements() returns (ds: seq<Displaced>)
      requires ValidTracking(control.tracking)
      ensures var txs := Unhandled(control.tracking, control.tracking.order);
        |ds| == |txs| && forall i :: 0 <= i < |ds| ==> Describes(engine, control.tracking, ds[i], txs[i])
    {
      var k := control.tracking;
      var txs := UnhandledIds();
      UnhandledHaveDisplacements(k, k.order);
      ds := [];
      for i := 0 to |txs|
        invariant |ds| == i && forall j :: 0 <= j < i ==> Describes(engine, k, ds[j], txs[j])
      {
        assert txs[i] in txs;
        var d := k.row[txs[i]].displacement.value;
        ds := ds + [DisplacedWrite(txs[i], d.id, d.reason, engine.statements(d.payload.content))];
      }
    }

    // -------------------------------------------------------------------------
    // Publication queue

    method PendingUsage() returns (u: Usage)
      requires Valid()
      modifies this`pendingPublishUsage
      ensures Valid() && u == Usage(|queue|, QueueBytes(queue)) && pendingPublishUsage == Some(u)
    {
      if pendingPublishUsage.Some? {
        return pendingPublishUsage.value;
      }
      var bytes := 0;
      for i := 0 to |queue|
        invariant bytes + QueueBytes(queue[i..]) == QueueBytes(queue)
        invariant queue == old(queue) && Valid()
      {
        assert queue[i..][1..] == queue[i + 1..];
        bytes := bytes + queue[i].bytes;
      }
      u := Usage(|queue|, bytes);
      pendingPublishUsage := Some(u);
    }

    /** What a local write needs: room in the queue by count and by bytes, SQL that is
        accepted, a payload that fits an inscription, an unused id, and a commit that
        succeeds. */
    ghost predicate CanCommit(q: Queued, fits: bool)
      reads this
    {
      && |queue| < maxPendingWrites && QueueBytes(queue) + q.bytes <= maxPendingBytes
      && engine.run(live.data, q.write.content).Some? && fits
      && q.write.tx !in live.applied && (forall p :: p in queue ==> p.write.tx != q.write.tx)
      && budget > 0
    }

    /** The commit itself, `usage` being what the queue occupies afterwards. */
    method StoreLocalWrite(q: Queued, data: Data, usage: Usage)
      requires Valid() && budget > 0 && engine.run(live.data, q.write.content) == Some(data)
      requires q.write.tx !in live.applied && usage == Usage(|queue| + 1, QueueBytes(queue) + q.bytes)
      modifies this
      ensures Valid() && log == old(log) + [CommitLocal(q)] && budget == old(budget) - 1
      ensures IsApplied(live, q.write) && queue == old(queue) + [q]
    {
      budget := budget - 1;
      LogNext(CommitLocal(q));
      log := log + [CommitLocal(q)];
      QueueBytesConcat(queue, [q]);
      assert QueueBytes([q]) == q.bytes + QueueBytes([]);
      live := Replica(data, live.applied[q.write.tx := q.write.content]);
      queue := queue + [q];
      pendingPublishUsage := Some(usage);
    }

    /** Effects, marker and queue entry commit together, or nothing does. `fits`
        says whether the encoded write fits an inscription. */
    method CommitLocalWrite(q: Queued, fits: bool) returns (r: Option<LocalError>)
      requires Valid()
      modifies this
      ensures Valid() && Advanced([CommitLocal(q)], r.None?)
      ensures r.None? <==> old(CanCommit(q, fits))
      ensures r == Some(SqlFailed) <==>
        |old(queue)| < maxPendingWrites && engine.run(old(live).data, q.write.content).None?
      ensures r == Some(TooLarge) <==>
        |old(queue)| < maxPendingWrites && engine.run(old(live).data, q.write.content).Some? && !fits
      ensures r == Some(PublishPending) <==>
        || |old(queue)| >= maxPendingWrites
        || (engine.run(old(live).data,
                       q.write.content).Some? && fits && QueueBytes(old(queue)) + q.bytes > maxPendingBytes)
      ensures r == Some(CommitFailed) ==> old(budget) == 0
      ensures r.None? ==> IsApplied(live, q.write) && queue == old(queue) + [q]
      ensures r.Some? ==> Durable() == old(Durable())
      ensures Spent(old(budget), old(log))
    {
      var usage := PendingUsage();
      if usage.writes >= maxPendingWrites {
        return Some(PublishPending);
      }
      pendingPublishUsage := None;
      var data := engine.run(live.data, q.write.content);
      if data.None? {
        return Some(SqlFailed);
      }
      if !fits {
        return Some(TooLarge);
      }
      var bytes := usage.bytes + q.bytes;
      if bytes > maxPendingBytes {
        return Some(PublishPending);
      }
      if q.write.tx in live.applied || exists p :: p in queue && p.write.tx == q.write.tx {
        return Some(DuplicateId);
      }
      if budget == 0 {
        return Some(CommitFailed);
      }
      StoreLocalWrite(q, data.value, Usage(usage.writes + 1, bytes));
      r := None;
    }

    /** One control transaction: the checkpoint, and a row for every write of the
        batch. */
    method SavePublishedBatch(view: View, msg: MsgId, batch: seq<Queued>) returns (saved: bool)
      requires Valid()
      modifies this
      ensures Valid() && Advanced([SavePublication(view, msg, batch)], saved) && queue == old(queue)
      ensures Spent(old(budget), old(log)) && (!saved ==> budget == 0)
    {
      var k := control.tracking;
      ghost var ws := QueuedWrites(batch);
      QueuedWritesAt(batch);
      for i := 0 to |batch|
        invariant PublishAll(control.tracking, msg, ws) == PublishAll(k, msg, ws[i..])
        invariant Valid() && Durable() == old(Durable()) && log == old(log) && budget == old(budget)
      {
        assert ws[i..][1..] == ws[i + 1..];
        var w := batch[i].write;
        k := SetStatus(UpsertLocal(k, w.tx, msg, w.content), w.tx, Live);
      }
      if budget == 0 {
        return false;
      }
      budget := budget - 1;
      LogNext(SavePublication(view, msg, batch));
      log := log + [SavePublication(view, msg, batch)];
      control := control.(checkpoint := view, tracking := k);
      saved := true;
    }

    /** The checkpoint and every row of the batch commit before the queue is
        cleared. */
    method CompleteBatch(view: View, msg: MsgId, batch: seq<Queued>) returns (r: Outcome)
      requires Valid()
      modifies this
      ensures Valid() && Advanced(Participant.CompleteBatch(view, msg, batch), r.Done?) && !r.InvalidLocalState?
      ensures r.Done? ==> pendingPublishUsage.None?
      ensures Spent(old(budget), old(log)) && (r.StorageFailure? ==> budget == 0)
    {
      ghost var cs := Participant.CompleteBatch(view, msg, batch);
      assert cs[..1] == [SavePublication(view, msg, batch)] && cs[..2] == cs;
      var saved := SavePublishedBatch(view, msg, batch);
      if !saved {
        return StorageFailure;
      }
      pendingPublishUsage := None;
      if budget == 0 {
        return StorageFailure;
      }
      budget := budget - 1;
      LogNext(ClearQueue(batch));
      log := log + [ClearQueue(batch)];
      queue := RemoveBatch(queue, batch);
      r := Done;
    }

    /** Deletes the batch's ids from the queue. */
    static function RemoveBatch(queue: seq<Queued>, batch: seq<Queued>): seq<Queued>
    {
      Remove(queue, Ids(QueuedWrites(batch)))
    }

    // -------------------------------------------------------------------------
    // Replicated databases

    predicate LiveProcessedWrite(o: Observed)
      reads this
    {
      LiveProcessed(Durable(), o)
    }

    /** `apply_adopted_write`, followed by the record of a rejection. */
    method ApplyAdoptedWrite(msg: MsgId, w: Write) returns (r: Outcome)
      requires Valid()
      modifies this
      ensures Valid() && Advanced(WriteCommits(LiveOnly, msg, w), r.Done?) && !r.InvalidLocalState?
      ensures Spent(old(budget), old(log)) && (r.StorageFailure? ==> budget == 0)
      ensures control.tracking == old(control).tracking
    {
      ghost var cs := WriteCommits(LiveOnly, msg, w);
      var verdict := ApplyToLive(w, AdoptLive(w));
      if verdict.Failed? {
        return StorageFailure;
      }
      assert cs[..1] == [AdoptLive(w)] && cs[..2] == cs;
      if verdict.Rejected? {
        r := RecordRejectedWrite(msg, Some(w.tx), RecordAdoptRejection(msg, w));
      } else {
        NothingToCommit(RecordAdoptRejection(msg, w));
        r := Done;
      }
    }

    /** `apply_channel_write` on LIVE. */
    method ApplyToLive(w: Write, ghost c: Commit) returns (v: Verdict)
      requires Valid() && Do(engine, Durable(), c) == Durable().(live := ApplyWrite(engine, live, w))
      modifies this
      ensures Valid() && Advanced([c], !v.Failed?)
      ensures lib == old(lib) && queue == old(queue) && control == old(control)
      ensures !v.Failed? ==> live == ApplyWrite(engine, old(live), w) && (v.Accepted? <==> IsApplied(live, w))
      ensures Spent(old(budget), old(log)) && (v.Failed? ==> budget == 0)
    {
      if w.tx in live.applied {
        NothingToCommit(c);
        return if live.applied[w.tx] == w.content then Accepted else Rejected;
      }
      var data := engine.run(live.data, w.content);
      if data.None? {
        NothingToCommit(c);
        return Rejected;
      }
      if budget == 0 {
        return Failed;
      }
      budget := budget - 1;
      LogNext(c);
      log := log + [c];
      live := Replica(data.value, live.applied[w.tx := w.content]);
      v := Accepted;
    }

    /** `apply_channel_write` on LIB. */
    method ApplyToLib(w: Write, ghost c: Commit) returns (v: Verdict)
      requires Valid() && Do(engine, Durable(), c) == Durable().(lib := ApplyWrite(engine, lib, w))
      modifies this
      ensures Valid() && Advanced([c], !v.Failed?)
      ensures live == old(live) && queue == old(queue) && control == old(control)
      ensures !v.Failed? ==> lib == ApplyWrite(engine, old(lib), w) && (v.Accepted? <==> IsApplied(lib, w))
      ensures Spent(old(budget), old(log)) && (v.Failed? ==> budget == 0)
    {
      if w.tx in lib.applied {
        NothingToCommit(c);
        return if lib.applied[w.tx] == w.content then Accepted else Rejected;
      }
      var data := engine.run(lib.data, w.content);
      if data.None? {
        NothingToCommit(c);
        return Rejected;
      }
      if budget == 0 {
        return Failed;
      }
      budget := budget - 1;
      LogNext(c);
      log := log + [c];
      lib := Replica(data.value, lib.applied[w.tx := w.content]);
      v := Accepted;
    }

    /** `apply_finalized_write_to_lib`, followed by the record of a rejection. */
    method ApplyFinalizedWriteToLib(msg: MsgId, w: Write) returns (r: Outcome)
      requires Valid()
      modifies this
      ensures Valid() && Advanced(WriteCommits(LibOnly, msg, w), r.Done?) && !r.InvalidLocalState?
      ensures Spent(old(budget), old(log)) && (r.StorageFailure? ==> budget == 0)
      ensures control.tracking == old(control).tracking
    {
      ghost var cs := WriteCommits(LibOnly, msg, w);
      var verdict := ApplyToLib(w, RebuildLib(w));
      if verdict.Failed? {
        return StorageFailure;
      }
      assert cs[..1] == [RebuildLib(w)] && cs[..2] == cs;
      if verdict.Rejected? {
        r := RecordRejectedWrite(msg, Some(w.tx), RecordLibRejection(msg, w));
      } else {
        NothingToCommit(RecordLibRejection(msg, w));
        r := Done;
      }
    }

    /** Both digests are checked first, LIB commits before LIVE, and LIVE runs only if
        LIB did not reject. */
    method ExecuteFinalizedWrite(w: Write) returns (v: Verdict)
      requires Valid()
      modifies this
      ensures Valid() && Advanced([FinalizeLib(w), FinalizeLive(w)], !v.Failed?)
      ensures !v.Failed? ==> (v.Accepted? <==> IsApplied(lib, w) && IsApplied(live, w))
      ensures Spent(old(budget), old(log)) && (v.Failed? ==> budget == 0)
      ensures control.tracking == old(control).tracking
    {
      ghost var cs := [FinalizeLib(w), FinalizeLive(w)];
      assert cs[..1] == [FinalizeLib(w)] && cs[..2] == cs;
      if Mismatched(lib, w) || Mismatched(live, w) {
        NothingToCommit(FinalizeLib(w));
        NothingToCommit(FinalizeLive(w));
        return Rejected;
      }
      v := ApplyToLib(w, FinalizeLib(w));
      if v.Rejected? {
        NothingToCommit(FinalizeLive(w));
      } else if v.Accepted? {
        v := ApplyToLive(w, FinalizeLive(w));
      }
    }

    /** `apply_finalized_write`, followed by the record of a rejection. */
    method ApplyFinalizedWrite(msg: MsgId, w: Write) returns (r: Outcome)
      requires Valid()
      modifies this
      ensures Valid() && Advanced(WriteCommits(LibAndLive, msg, w), r.Done?) && !r.InvalidLocalState?
      ensures Spent(old(budget), old(log)) && (r.StorageFailure? ==> budget == 0)
      ensures control.tracking == old(control).tracking
    {
      ghost var cs := WriteCommits(LibAndLive, msg, w);
      var verdict := ExecuteFinalizedWrite(w);
      assert cs[..1] == [FinalizeLib(w)] && cs[..2] == [FinalizeLib(w), FinalizeLive(w)] && cs[..3] == cs;
      if verdict.Failed? {
        return StorageFailure;
      }
      if verdict.Rejected? {
        r := RecordRejectedWrite(msg, Some(w.tx), RecordFinalizeRejection(msg, w));
      } else {
        NothingToCommit(RecordFinalizeRejection(msg, w));
        r := Done;
      }
    }

    /** Replaces LIVE by the rebuilt image, which carries no queue. */
    method FinishLiveRebuild(image: Replica, ghost replayed: seq<Write>) returns (r: Outcome)
      requires Valid() && image == Replay(engine, lib, replayed)
      modifies this
      ensures Valid() && Advanced([InstallRebuild(replayed)], r.Done?) && !r.InvalidLocalState?
      ensures r.Done? ==> pendingPublishUsage.None? && queue == []
      ensures Spent(old(budget), old(log)) && (r.StorageFailure? ==> budget == 0)
    {
      pendingPublishUsage := None;
      if budget == 0 {
        return StorageFailure;
      }
      budget := budget - 1;
      LogNext(InstallRebuild(replayed));
      log := log + [InstallRebuild(replayed)];
      live := image;
      queue := [];
      r := Done;
    }
  }

  lemma {:induction false} UnhandledHaveDisplacements(k: Tracking, order: seq<TxId>)
    requires ValidTracking(k)
    ensures forall tx :: tx in Unhandled(k, order) ==> tx in k.row && k.row[tx].displacement.Some?
  {
    if order != [] {
      UnhandledHaveDisplacements(k, order[1..]);
      assert order[0] in k.row ==> ValidRow(k, order[0]);
    }
  }
}
