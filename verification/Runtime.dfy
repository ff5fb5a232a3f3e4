/** The worker that owns the sequencer and the databases. Every method is proved to
    take a step of the participant state machine, or none. */
module RuntimeClass {
  import opened Wrappers
  import opened SqlHistory
  import opened WriteStatuses
  import opened Commits
  import opened Participant
  import opened DatabasesClass
  import opened Applier
  import Publication

  datatype WriteError =
    | ReadOnly | RuntimeHalted | PublicationPending | SequencerNotReady
    | UnhandledDisplacements | StaleDisplacement | Local(error: LocalError) | HandlingFailed

  predicate DisplacedUnder(k: Tracking, tx: TxId, id: nat)
  {
    tx in k.row && k.row[tx].displacement.Some? && k.row[tx].displacement.value.id == id
  }

  /** How a publication attempt ends: with what the storage answered, without a batch,
      or refused by the sequencer. */
  datatype PublishOutcome = Stored(outcome: Outcome) | NotPrepared(error: Publication.Error) | NotAccepted

  class Runtime {
    const db: Databases
    const readOnly: bool
    var sequencerReady: bool
    var readyCheckpointPending: bool
    /** The event whose last attempt failed. */
    var eventPendingRetry: Option<Event>
    var publishState: PublishState
    /** The inscription limit of the node's era, once fetched. */
    var inscriptionLimit: Option<nat>

    ghost var interrupted: Option<Interrupted>
    ghost var committed: seq<Write>

    ghost function Abstract(): System
      reads this, db
    {
      System(db.Durable(), Up(sequencerReady, readyCheckpointPending, eventPendingRetry, publishState), interrupted,
             committed)
    }

    ghost function Configuration(maxBatch: nat): Config
    {
      Config(db.maxPendingWrites, db.maxPendingBytes, maxBatch)
    }

    constructor (db: Databases, readOnly: bool, ghost interrupted: Option<Interrupted>, ghost committed: seq<Write>)
      ensures this.db == db && this.readOnly == readOnly
      ensures Abstract() == System(db.Durable(), Up(false, false, None, Idle), interrupted, committed)
      ensures inscriptionLimit.None?
    {
      this.db, this.readOnly := db, readOnly;
      sequencerReady, readyCheckpointPending, eventPendingRetry := false, false, None;
      publishState, inscriptionLimit := Idle, None;
      this.interrupted, this.committed := interrupted, committed;
    }

    /** Accepts a write exactly when nothing stands in its way. */
    method EnsureReadyToWrite() returns (r: Option<WriteError>)
      ensures r.None? <==> !readOnly && ReadyToWrite(Abstract()) && inscriptionLimit.Some?
      ensures r == Some(ReadOnly) <==> readOnly
      ensures r == Some(RuntimeHalted) <==> !readOnly && eventPendingRetry.Some?
      ensures r == Some(PublicationPending) <==> !readOnly && eventPendingRetry.None? && publishState.CheckpointPending?
      ensures r.Some? ==> r.value in {ReadOnly, RuntimeHalted, PublicationPending, SequencerNotReady}
    {
      if readOnly {
        return Some(ReadOnly);
      }
      if eventPendingRetry.Some? {
        return Some(RuntimeHalted);
      }
      if publishState.CheckpointPending? {
        return Some(PublicationPending);
      }
      if !sequencerReady || readyCheckpointPending {
        return Some(SequencerNotReady);
      }
      if db.control.rebuild {
        return Some(SequencerNotReady);
      }
      if inscriptionLimit.None? {
        return Some(SequencerNotReady);
      }
      r := None;
    }

    /** A write is executed only when every displacement is handled; a refused write
        changes nothing. */
    method Execute(q: Queued, fits: bool, ghost maxBatch: nat) returns (r: Option<WriteError>)
      requires db.Valid() && ValidTracking(db.control.tracking)
      modifies this`committed, db
      ensures db.Valid()
      ensures r.None? ==>
        && Abstract() == Step(db.engine, old(Abstract()), Action.Execute(q))
        && (FreshId(old(Abstract()), q.write.tx) ==>
              Enabled(db.engine, Configuration(maxBatch), old(Abstract()), Action.Execute(q)))
      ensures r.Some? ==> Abstract() == old(Abstract())
      ensures r.None? <==>
        && !readOnly && ReadyToWrite(old(Abstract())) && inscriptionLimit.Some?
        && Unhandled(old(db.control.tracking), old(db.control.tracking.order)) == [] && old(db.CanCommit(q, fits))
    {
      var refusal := EnsureReadyToWrite();
      if refusal.Some? {
        return refusal;
      }
      var open := db.UnhandledDisplacements();
      if open != [] {
        return Some(UnhandledDisplacements);
      }
      assert Unhandled(db.control.tracking, db.control.tracking.order) == [];
      NoneUnhandled(db.control.tracking, db.control.tracking.order);
      var e := db.CommitLocalWrite(q, fits);
      if e.Some? {
        return Some(Local(e.value));
      }
      Advances(db.engine, db.start, old(db.log), db.log, [CommitLocal(q)], true);
      CommitOne(db.engine, old(db.Durable()), CommitLocal(q));
      committed := committed + [q.write];
      r := None;
    }

    /** A retry executes the statements of a displacement that was listed, as a new write
        `q`, even while other displacements are open, then handles exactly that
        displacement. The payload under an identity never changes, so the statements are
        still those of the row, if the identity is still current. */
    method RetryDisplacement(d: Displaced, q: Queued, fits: bool, ghost maxBatch: nat)
      returns (r: Option<WriteError>)
      requires db.Valid() && ValidTracking(db.control.tracking)
      requires db.engine.statements(q.write.content) == d.transaction
      requires DisplacedUnder(db.control.tracking, d.tx, d.id) ==> Describes(db.engine, db.control.tracking, d, d.tx)
      modifies this`committed, db
      ensures db.Valid()
      ensures r.None? || r == Some(HandlingFailed) ==>
        && Abstract() == Step(db.engine, old(Abstract()), Action.RetryDisplacement(d.tx, d.id, q, r.None?))
        && (FreshId(old(Abstract()), q.write.tx) ==>
              Enabled(db.engine, Configuration(maxBatch), old(Abstract()),
                      Action.RetryDisplacement(d.tx, d.id, q, r.None?)))
      ensures r.Some? && r != Some(HandlingFailed) ==> Abstract() == old(Abstract())
      ensures r.None? || r == Some(HandlingFailed) <==>
        && !readOnly && ReadyToWrite(old(Abstract())) && inscriptionLimit.Some?
        && IsUnhandled(old(db.control.tracking), d.tx) && DisplacedUnder(old(db.control.tracking), d.tx, d.id)
        && old(db.CanCommit(q, fits))
      ensures r == Some(HandlingFailed) ==> old(db.budget) == 1
    {
      var refusal := EnsureReadyToWrite();
      if refusal.Some? {
        return refusal;
      }
      var k := db.control.tracking;
      if !IsUnhandled(k, d.tx) || !DisplacedUnder(k, d.tx, d.id) {
        return Some(StaleDisplacement);
      }
      var e := db.CommitLocalWrite(q, fits);
      if e.Some? {
        return Some(Local(e.value));
      }
      Advances(db.engine, db.start, old(db.log), db.log, [CommitLocal(q)], true);
      CommitOne(db.engine, old(db.Durable()), CommitLocal(q));
      committed := committed + [q.write];
      label Written:
      var marked := db.MarkDisplacementHandled(d.tx, d.id);
      Advances(db.engine, db.start, old@Written(db.log), db.log, [HandleDisplacement(d.tx, d.id)], marked.Done?);
      CommitOne(db.engine, old@Written(db.Durable()), HandleDisplacement(d.tx, d.id));
      r := if marked.Done? then None else Some(HandlingFailed);
    }

    /** Handling is refused while an event waits for retry. */
    method MarkHandled(tx: TxId, id: nat) returns (r: Option<WriteError>)
      requires db.Valid()
      modifies db
      ensures db.Valid()
      ensures r.None? ==>
        eventPendingRetry.None? && Abstract() == Step(db.engine, old(Abstract()), MarkDisplacementHandled(tx, id))
      ensures r.Some? ==> Abstract() == old(Abstract())
      ensures r.None? <==> eventPendingRetry.None? && old(db.budget) > 0
      ensures r == Some(RuntimeHalted) <==> eventPendingRetry.Some?
    {
      if eventPendingRetry.Some? {
        return Some(RuntimeHalted);
      }
      var marked := db.MarkDisplacementHandled(tx, id);
      Advances(db.engine, db.start, old(db.log), db.log, [HandleDisplacement(tx, id)], marked.Done?);
      CommitOne(db.engine, old(db.Durable()), HandleDisplacement(tx, id));
      r := if marked.Done? then None else Some(HandlingFailed);
    }

    /** The sequencer accepted the first `n` queued writes: its history grows at the
        tip, and the checkpoint it returns contains the publication. */
    method RecordAcceptance(n: nat, msg: MsgId)
      requires 1 <= n <= |db.queue|
      modifies this`publishState
      ensures Abstract() == Step(db.engine, old(Abstract()), AcceptPublication(n, msg))
    {
      var v, batch := db.control.checkpoint, db.queue[..n];
      publishState := CheckpointPending(batch, msg,
        View(v.finalized, v.history + [Inscription(msg, Some(QueuedWrites(batch)))]));
    }

    /** Saves an accepted publication; a failure leaves it pending. */
    method PersistPublishCheckpoint() returns (r: Outcome, ghost k: nat)
      requires db.Valid()
      modifies this`publishState, db
      ensures db.Valid()
      ensures old(publishState).Idle? ==> r.Done? && Abstract() == old(Abstract())
      ensures old(publishState).CheckpointPending? ==>
        k <= 2 && (r.Done? <==> k == 2) && Abstract() == Step(db.engine, old(Abstract()), PersistPublication(k))
      ensures db.Spent(old(db.budget), old(db.log)) && (!r.Done? ==> db.budget == 0)
    {
      k := 0;
      if publishState.Idle? {
        return Done, 0;
      }
      var CheckpointPending(batch, msg, view) := publishState;
      r := db.CompleteBatch(view, msg, batch);
      k := |db.log| - |old(db.log)|;
      Advances(db.engine, db.start, old(db.log), db.log, Participant.CompleteBatch(view, msg, batch), r.Done?);
      if r.Done? {
        publishState := Idle;
      }
    }

    /** Packs the stored queue: the payload carries its `n` oldest writes. */
    method Pack(c: Publication.Codec, maxBatch: nat, limit: nat)
      returns (r: Result<Option<(Publication.Payload, nat)>, Publication.Error>)
      requires Publication.RoundTrips(c) && 1 <= maxBatch <= Publication.MAX_BATCH_WRITES
      ensures r == Ok(None) <==> db.queue == []
      ensures r.Ok? && r.value.Some? ==>
        var (payload, n) := r.value.value;
        IsPacked(c, payload, db.queue, maxBatch, limit, n)
      ensures r != Err(Publication.InvalidLocalState)
      ensures r.Err? ==> CannotPack(c, db.queue, maxBatch, limit)
    {
      var pending := Publication.StoredQueue(c, db.queue);
      var prepared := Publication.Prepare(c, pending, maxBatch, limit);
      Publication.StoredQueueDecodes(c, db.queue, 0);
      if prepared.Err? {
        return Err(prepared.error);
      }
      if prepared.value.None? {
        return Ok(None);
      }
      var batch := prepared.value.value;
      Publication.StoredQueueDecodes(c, db.queue, |batch.writes|);
      r := Ok(Some((batch.payload, |batch.writes|)));
    }

    /** Takes the sequencer's acceptance and saves it. */
    method SaveAcceptance(n: nat, msg: MsgId) returns (r: Outcome, ghost k: nat)
      requires db.Valid() && publishState.Idle? && 1 <= n <= |db.queue|
      modifies this`publishState, db
      ensures db.Valid() && k <= 2 && (r.Done? ==> publishState.Idle?)
      ensures Abstract()
        == Step(db.engine, Step(db.engine, old(Abstract()), AcceptPublication(n, msg)), PersistPublication(k))
      ensures db.Spent(old(db.budget), old(db.log)) && (!r.Done? ==> db.budget == 0)
    {
      RecordAcceptance(n, msg);
      r, k := PersistPublishCheckpoint();
    }

    /** Packs the stored queue and publishes the batch, `limit` being the inscription
        limit the node reports now and `accepted` the sequencer's answer. The payload
        handed to the sequencer carries exactly the `n` oldest queued writes. */
    method PublishBatch(c: Publication.Codec, maxBatch: nat, limit: nat, accepted: Option<MsgId>)
      returns (r: PublishOutcome, payload: Option<Publication.Payload>, ghost n: nat, ghost k: nat)
      requires db.Valid() && Publication.RoundTrips(c) && 1 <= maxBatch <= Publication.MAX_BATCH_WRITES
      requires publishState.Idle?
      modifies this`publishState, this`inscriptionLimit, db
      ensures db.Valid()
      ensures n > 0 <==> payload.Some? && accepted.Some?
      ensures n == 0 ==> Abstract() == old(Abstract())
      ensures payload.Some? ==> c.size(payload.value) <= limit
      ensures n > 0 ==>
        && k <= 2 && IsPacked(c, payload.value, old(db.queue), maxBatch, limit, n)
        && Abstract() == Step(db.engine, Step(db.engine, old(Abstract()), AcceptPublication(n, accepted.value)),
                              PersistPublication(k))
      ensures r.Stored? && r.outcome.Done? ==> publishState.Idle?
      ensures r == NotAccepted <==> payload.Some? && accepted.None?
      ensures r.NotPrepared? ==> CannotPack(c, db.queue, maxBatch, limit)
      ensures payload.None? && !r.NotPrepared? ==> old(db.queue) == []
      ensures db.Spent(old(db.budget), old(db.log)) && (r.Stored? && !r.outcome.Done? ==> db.budget == 0)
    {
      payload, n, k := None, 0, 0;
      inscriptionLimit := Some(limit);
      var prepared := Pack(c, maxBatch, limit);
      if prepared.Err? {
        return NotPrepared(prepared.error), payload, n, k;
      }
      if prepared.value.None? {
        return Stored(Done), payload, n, k;
      }
      var (packed, size) := prepared.value.value;
      payload := Some(packed);
      if accepted.None? {
        return NotAccepted, payload, n, k;
      }
      n := size;
      var saved;
      saved, k := SaveAcceptance(size, accepted.value);
      r := Stored(saved);
    }

    /** Saves an acceptance that is still pending. */
    method SavePending(ghost maxBatch: nat) returns (r: Outcome, ghost steps: seq<Action>)
      requires db.Valid() && !db.control.rebuild
      modifies this`publishState, db
      ensures db.Valid() && !db.control.rebuild && (r.Done? ==> publishState.Idle?)
      ensures AllEnabled(db.engine, Configuration(maxBatch), old(Abstract()), steps)
      ensures Abstract() == Steps(db.engine, old(Abstract()), steps)
      ensures forall a :: a in steps ==> a.PersistPublication?
      ensures db.Spent(old(db.budget), old(db.log)) && (!r.Done? ==> db.budget == 0)
    {
      if publishState.Idle? {
        return Done, [];
      }
      ghost var k;
      r, k := PersistPublishCheckpoint();
      steps := [PersistPublication(k)];
      StepsOne(db.engine, Configuration(maxBatch), old(Abstract()), PersistPublication(k));
      PersistKeepsRebuild(db.engine, old(Abstract()), k);
    }

    /** One publication attempt. Nothing is published during a rebuild, and an
        earlier acceptance is saved before the next batch is taken. Every step taken
        is one the participant may take. */
    method AdvancePublish(c: Publication.Codec, maxBatch: nat, limit: nat, accepted: Option<MsgId>)
      returns (r: PublishOutcome, payload: Option<Publication.Payload>, ghost steps: seq<Action>)
      requires db.Valid() && Publication.RoundTrips(c) && 1 <= maxBatch <= Publication.MAX_BATCH_WRITES
      requires sequencerReady && !readyCheckpointPending && eventPendingRetry.None?
      modifies this`publishState, this`inscriptionLimit, db
      ensures db.Valid()
      ensures AllEnabled(db.engine, Configuration(maxBatch), old(Abstract()), steps)
      ensures Abstract() == Steps(db.engine, old(Abstract()), steps)
      ensures old(db.control.rebuild) ==> steps == []
      ensures r.Stored? && r.outcome.Done? && !old(db.control.rebuild) ==> publishState.Idle?
      ensures payload.Some? && accepted.Some? ==>
        && |steps| >= 2
        && var i := |steps| - 2;
           && steps[i].AcceptPublication? && steps[i].msg == accepted.value
           && IsPacked(c, payload.value, Steps(db.engine, old(Abstract()), steps[..i]).store.queue, maxBatch, limit,
                       steps[i].n)
      ensures payload.None? || accepted.None? ==> forall a :: a in steps ==> a.PersistPublication?
      ensures r == NotAccepted ==> accepted.None?
      ensures r.NotPrepared? ==> CannotPack(c, db.queue, maxBatch, limit)
      ensures db.Spent(old(db.budget), old(db.log)) && (r.Stored? && !r.outcome.Done? ==> db.budget == 0)
      ensures r == Stored(Done) && payload.None? ==> db.control.rebuild || db.queue == []
    {
      steps, payload := [], None;
      if db.control.rebuild {
        return Stored(Done), payload, steps;
      }
      var saved;
      saved, steps := SavePending(maxBatch);
      if !saved.Done? {
        return Stored(saved), payload, steps;
      }
      ghost var ready, n, k := Abstract(), 0, 0;
      r, payload, n, k := PublishBatch(c, maxBatch, limit, accepted);
      if n > 0 {
        PublicationFollows(db.engine, Configuration(maxBatch), old(Abstract()), steps, ready, n, accepted.value, k);
        steps := steps + [AcceptPublication(n, accepted.value), PersistPublication(k)];
      }
    }

    /** One attempt at an event, after which it is recorded as applied or kept for
        retry. Used for a new event, and for the one that is pending. */
    method ApplyEvent(ev: Event) returns (ghost k: nat)
      requires db.Valid() && (eventPendingRetry.Some? ==> eventPendingRetry == Some(ev))
      modifies this, db
      ensures db.Valid()
      ensures k <= |EventCommits(old(db.Durable()), ev)|
      ensures Abstract() == Step(db.engine, old(Abstract()), AttemptEvent(ev, k))
      ensures eventPendingRetry == if k < |EventCommits(old(db.Durable()), ev)| then Some(ev) else None
      ensures db.Spent(old(db.budget), old(db.log))
      ensures eventPendingRetry.Some? ==> db.budget == 0 || Contradicted(old(db.control.tracking), ev)
    {
      ghost var before := Abstract();
      var r := ProcessBlocks(db, ev);
      k := |db.log| - |old(db.log)|;
      Advances(db.engine, db.start, old(db.log), db.log, EventCommits(old(db.Durable()), ev), r.Done?);
      AttemptOutcome(db.engine, before, ev, k, db.Durable());
      if r.Done? {
        RecordAppliedEvent();
      } else {
        eventPendingRetry := Some(ev);
        interrupted := StillInterrupted(db.engine, before, ev, k, db.Durable());
      }
    }

    /** `record_applied_event` for a processed-block event. */
    method RecordAppliedEvent()
      modifies this`eventPendingRetry, this`readyCheckpointPending, this`sequencerReady, this`interrupted
      ensures Abstract() == System(db.Durable(), Applied(old(Abstract()).process), None, committed)
    {
      eventPendingRetry, interrupted := None, None;
      if readyCheckpointPending {
        readyCheckpointPending := false;
        sequencerReady := true;
      }
    }

    /** A new event is taken only when none is pending and no publication waits for
        its checkpoint. */
    method HandleEvent(ev: Event, ghost maxBatch: nat) returns (taken: bool, ghost k: nat)
      requires db.Valid()
      modifies this, db
      ensures db.Valid()
      ensures taken <==> old(eventPendingRetry).None? && old(publishState).Idle?
      ensures taken ==>
        && Abstract() == Step(db.engine, old(Abstract()), AttemptEvent(ev, k))
        && k <= |EventCommits(old(db.Durable()), ev)|
        && eventPendingRetry == if k < |EventCommits(old(db.Durable()), ev)| then Some(ev) else None
      ensures taken && SequencerContract(old(db.Durable()), ev) ==>
        Enabled(db.engine, Configuration(maxBatch), old(Abstract()), AttemptEvent(ev, k))
      ensures !taken ==> Abstract() == old(Abstract())
    {
      taken := eventPendingRetry.None? && publishState.Idle?;
      k := 0;
      if taken {
        k := ApplyEvent(ev);
      }
    }

    /** Attempts the pending event again: the same event, until it is applied. */
    method RetryPendingEvent() returns (ghost k: nat)
      requires db.Valid()
      modifies this, db
      ensures db.Valid()
      ensures old(eventPendingRetry).None? ==> Abstract() == old(Abstract())
      ensures old(eventPendingRetry).Some? ==>
        var ev := old(eventPendingRetry).value;
        && k <= |EventCommits(old(db.Durable()), ev)|
        && Abstract() == Step(db.engine, old(Abstract()), AttemptEvent(ev, k))
        && eventPendingRetry == if k < |EventCommits(old(db.Durable()), ev)| then Some(ev) else None
    {
      k := 0;
      if eventPendingRetry.Some? {
        k := ApplyEvent(eventPendingRetry.value);
      }
    }

    /** Publishing waits for the checkpoint queued behind the ready event. */
    method HandleReadyEvent()
      modifies this`readyCheckpointPending
      ensures Abstract() == Step(db.engine, old(Abstract()), ReadyEvent)
    {
      readyCheckpointPending := true;
    }

    /** The recovery that a started runtime runs first, over the sequencer's own
        pending transactions: every inscription of the saved history that is left out
        is another participant's, and none of those matches the queue. `k`
        transactions commit; the runtime is up exactly when all of them do. */
    method RecoverPublishedWrite(c: Publication.Codec, own: seq<SavedTransaction>) returns (r: Outcome, ghost k: nat)
      requires db.Valid() && Publication.RoundTrips(c)
      requires OwnTransactions(c, own, db.control.checkpoint.history, db.queue)
      requires sequencerReady == readyCheckpointPending == false && eventPendingRetry.None? && publishState.Idle?
      modifies db
      ensures db.Valid()
      ensures var v := old(db.control.checkpoint); k <= |RecoverCommits(v, v.history, old(db.queue))|
      ensures var v := old(db.control.checkpoint); r.Done? <==> k == |RecoverCommits(v, v.history, old(db.queue))|
      ensures db.Durable() == Step(db.engine, old(Abstract()).(process := Down), Restart(k)).store
      ensures r.Done? ==> Abstract() == Step(db.engine, old(Abstract()).(process := Down), Restart(k))
      ensures db.Spent(old(db.budget), old(db.log)) && (!r.Done? ==> db.budget == 0)
    {
      var view, queue := db.control.checkpoint, db.queue;
      ghost var cs := RecoverCommits(view, view.history, queue);
      RecoveryScansOwn(c, view, own, view.history, queue);
      var found := FindOwnPublication(c, own, queue, view);
      r := Done;
      if found.Some? {
        var (msg, n) := found.value;
        r := db.CompleteBatch(view, msg, queue[..n]);
      }
      k := |db.log| - |old(db.log)|;
      Advances(db.engine, db.start, old(db.log), db.log, cs, r.Done?);
      RestartOutcome(db.engine, old(Abstract()).(process := Down), k);
    }
  }

  /** The first saved transaction that matches the queue, and how much of it. */
  method FindOwnPublication(c: Publication.Codec, own: seq<SavedTransaction>, queue: seq<Queued>, ghost view: View)
    returns (found: Option<(MsgId, nat)>)
    requires Publication.RoundTrips(c)
    ensures found.Some? ==> found.value.1 <= |queue|
    ensures RecoverCommits(view, Inscriptions(c, own), queue)
         == if found.None? then [] else Participant.CompleteBatch(view, found.value.0, queue[..found.value.1])
  {
    ghost var cs := RecoverCommits(view, Inscriptions(c, own), queue);
    assert own[0..] == own;
    for n := 0 to |own|
      invariant cs == RecoverCommits(view, Inscriptions(c, own[n..]), queue)
    {
      assert own[n..][1..] == own[n + 1..];
      var matched := Publication.FindInQueue(c, own[n].payload, own[n].msg, queue);
      if matched.Some? {
        return Some((own[n].msg, if matched.value <= |queue| then matched.value else 0));
      }
    }
    assert own[|own|..] == [];
    found := None;
  }

  lemma {:induction false} RestartOutcome(e: Engine, s: System, k: nat)
    requires k <= |RecoverCommits(s.store.control.checkpoint, s.store.control.checkpoint.history, s.store.queue)|
    ensures var cs := RecoverCommits(s.store.control.checkpoint, s.store.control.checkpoint.history, s.store.queue);
      Step(e, s, Restart(k))
        == s.(store := Run(e, s.store, cs[..k]), process := if k == |cs| then Up(false, false, None, Idle) else Down)
  {
  }

  /** What stays recorded of an attempt that failed after `k` transactions. */
  ghost function StillInterrupted(e: Engine, s: System, ev: Event, k: nat, st: Store): Option<Interrupted>
    requires k <= |EventCommits(s.store, ev)|
  {
    if k == 0 then s.interrupted else Some(Stopped(e, s, ev, k, st))
  }

  lemma {:induction false} AttemptOutcome(e: Engine, s: System, ev: Event, k: nat, st: Store)
    requires s.process.Up? && k <= |EventCommits(s.store, ev)| && st == Run(e, s.store, EventCommits(s.store, ev)[..k])
    ensures k == |EventCommits(s.store, ev)| ==>
      Step(e, s, AttemptEvent(ev, k)) == System(st, Applied(s.process), None, s.committed)
    ensures k < |EventCommits(s.store, ev)| ==>
      Step(e, s, AttemptEvent(ev, k))
        == System(st, s.process.(retrying := Some(ev)), StillInterrupted(e, s, ev, k, st), s.committed)
  {
  }

  /** The longest body of the queue cannot be published. */
  ghost predicate CannotPack(c: Publication.Codec, queue: seq<Queued>, maxBatch: nat, limit: nat)
  {
    Publication.Unpackable(c, Publication.StoredQueue(c, queue), maxBatch, limit)
  }

  /** `n` writes are the first halving that fits of the longest body of the queue. */
  ghost predicate IsFirstFit(c: Publication.Codec, queue: seq<Queued>, maxBatch: nat, limit: nat, n: nat)
  {
    var pending := Publication.StoredQueue(c, queue);
    exists m: nat ::
      && Publication.IsLongestBody(c, pending, maxBatch, m)
      && Publication.FirstFit(c, Publication.Decoded(c, pending[..m]), limit, n)
  }

  /** The payload carries the `n` oldest queued writes, within every limit, and no more
      of them could have been packed. */
  ghost predicate IsPacked(c: Publication.Codec, payload: Publication.Payload, queue: seq<Queued>, maxBatch: nat,
                           limit: nat, n: nat)
  {
    && Carries(c, payload, queue, n) && n <= maxBatch && c.size(payload) <= limit
    && IsFirstFit(c, queue, maxBatch, limit, n)
  }

  /** The payload decodes to the `n` oldest queued writes. */
  predicate Carries(c: Publication.Codec, payload: Publication.Payload, queue: seq<Queued>, n: nat)
  {
    1 <= n <= |queue| && c.decode(payload) == Some(QueuedWrites(queue[..n]))
  }

  /** One of the sequencer's own transactions in the saved checkpoint. */
  datatype SavedTransaction = SavedTransaction(msg: MsgId, payload: Publication.Payload)

  function Inscriptions(c: Publication.Codec, txs: seq<SavedTransaction>): seq<Inscription>
  {
    if txs == [] then [] else [Inscription(txs[0].msg, c.decode(txs[0].payload))] + Inscriptions(c, txs[1..])
  }

  /** `own` is `history` without some inscriptions that do not match the queue. */
  predicate OwnTransactions(c: Publication.Codec, own: seq<SavedTransaction>, history: seq<Inscription>,
                            queue: seq<Queued>)
    decreases |history|
  {
    if history == [] then own == []
    else if own != [] && history[0] == Inscription(own[0].msg, c.decode(own[0].payload)) then
      OwnTransactions(c, own[1..], history[1..], queue)
    else
      MatchesPending(history[0], queue).None? && OwnTransactions(c, own, history[1..], queue)
  }

  /** Scanning the own transactions recovers what scanning the whole history would. */
  lemma {:induction false} RecoveryScansOwn(c: Publication.Codec, view: View, own: seq<SavedTransaction>,
                                            history: seq<Inscription>, queue: seq<Queued>)
    requires OwnTransactions(c, own, history, queue)
    ensures RecoverCommits(view, history, queue) == RecoverCommits(view, Inscriptions(c, own), queue)
    decreases |history|
  {
    if history != [] {
      if own != [] && history[0] == Inscription(own[0].msg, c.decode(own[0].payload)) {
        RecoveryScansOwn(c, view, own[1..], history[1..], queue);
        assert Inscriptions(c, own)[1..] == Inscriptions(c, own[1..]);
      } else {
        RecoveryScansOwn(c, view, own, history[1..], queue);
      }
    }
  }

  ghost function Steps(e: Engine, s: System, actions: seq<Action>): System
    decreases |actions|
  {
    if actions == [] then s else Steps(e, Step(e, s, actions[0]), actions[1..])
  }

  ghost predicate AllEnabled(e: Engine, cfg: Config, s: System, actions: seq<Action>)
    decreases |actions|
  {
    actions == [] || (Enabled(e, cfg, s, actions[0]) && AllEnabled(e, cfg, Step(e, s, actions[0]), actions[1..]))
  }

  lemma {:induction false} StepsOne(e: Engine, cfg: Config, s: System, a: Action)
    ensures Steps(e, s, [a]) == Step(e, s, a)
    ensures AllEnabled(e, cfg, s, [a]) <==> Enabled(e, cfg, s, a)
  {
    assert [a][1..] == [];
    assert Steps(e, s, [a]) == Steps(e, Step(e, s, a), []);
    assert AllEnabled(e, cfg, Step(e, s, a), []);
  }

  lemma {:induction false} StepsTwo(e: Engine, cfg: Config, s: System, a: Action, b: Action)
    ensures Steps(e, s, [a, b]) == Step(e, Step(e, s, a), b)
    ensures AllEnabled(e, cfg, s, [a, b]) <==> Enabled(e, cfg, s, a) && Enabled(e, cfg, Step(e, s, a), b)
  {
    assert [a, b][1..] == [b];
    StepsOne(e, cfg, Step(e, s, a), b);
    assert Steps(e, s, [a, b]) == Steps(e, Step(e, s, a), [b]);
  }

  /** A ready participant may publish a prefix of its queue and save it. */
  lemma {:induction false} PublicationIsEnabled(e: Engine, cfg: Config, s: System, n: nat, msg: MsgId, k: nat)
    requires ReadyToWrite(s) && 1 <= n <= |s.store.queue| && n <= cfg.maxBatch && k <= 2
    ensures AllEnabled(e, cfg, s, [AcceptPublication(n, msg), PersistPublication(k)])
    ensures Steps(e, s, [AcceptPublication(n, msg), PersistPublication(k)])
         == Step(e, Step(e, s, AcceptPublication(n, msg)), PersistPublication(k))
  {
    StepsTwo(e, cfg, s, AcceptPublication(n, msg), PersistPublication(k));
  }

  lemma {:induction false} StepsConcat(e: Engine, cfg: Config, s: System, xs: seq<Action>, ys: seq<Action>)
    ensures Steps(e, s, xs + ys) == Steps(e, Steps(e, s, xs), ys)
    ensures AllEnabled(e, cfg, s, xs + ys) <==> AllEnabled(e, cfg, s, xs) && AllEnabled(e, cfg, Steps(e, s, xs), ys)
    decreases |xs|
  {
    if xs == [] {
      assert xs + ys == ys;
    } else {
      assert (xs + ys)[1..] == xs[1..] + ys;
      StepsConcat(e, cfg, Step(e, s, xs[0]), xs[1..], ys);
    }
  }

  /** Publishing after earlier steps. */
  lemma {:induction false} PublicationFollows(e: Engine, cfg: Config, s: System, steps: seq<Action>, ready: System,
                                              n: nat, msg: MsgId, k: nat)
    requires AllEnabled(e, cfg, s, steps) && Steps(e, s, steps) == ready
    requires ReadyToWrite(ready) && 1 <= n <= |ready.store.queue| && n <= cfg.maxBatch && k <= 2
    ensures var all := steps + [AcceptPublication(n, msg), PersistPublication(k)];
      && AllEnabled(e, cfg, s, all) && all[..|steps|] == steps
      && Steps(e, s, all) == Step(e, Step(e, ready, AcceptPublication(n, msg)), PersistPublication(k))
  {
    PublicationIsEnabled(e, cfg, ready, n, msg, k);
    StepsConcat(e, cfg, s, steps, [AcceptPublication(n, msg), PersistPublication(k)]);
  }

  lemma {:induction false} PersistKeepsRebuild(e: Engine, s: System, k: nat)
    ensures Step(e, s, PersistPublication(k)).store.control.rebuild == s.store.control.rebuild
  {
    if s.process.Up? && s.process.publish.CheckpointPending? && k <= 2 {
      var CheckpointPending(batch, msg, view) := s.process.publish;
      var cs := Participant.CompleteBatch(view, msg, batch);
      assert cs[..0] == [] && cs[..1] == [cs[0]] && cs[..2] == cs && cs[1..] == [cs[1]];
      CommitOne(e, s.store, cs[0]);
      CommitOne(e, Do(e, s.store, cs[0]), cs[1]);
      assert [cs[0]][..1] == [cs[0]] && [cs[1]][..1] == [cs[1]];
      assert Run(e, s.store, cs) == Run(e, Do(e, s.store, cs[0]), [cs[1]]);
    }
  }

  /** Committed transactions and their effect. */
  lemma {:induction false} Advances(e: Engine, start: Store, before: seq<Commit>, after: seq<Commit>, cs: seq<Commit>,
                                    done: bool)
    requires Grew(before, after, cs, done)
    ensures Run(e, start, after) == Run(e, Run(e, start, before), cs[..|after| - |before|])
  {
    RunConcat(e, start, before, cs[..|after| - |before|]);
  }

  lemma {:induction false} CommitOne(e: Engine, st: Store, c: Commit)
    ensures Run(e, st, [c][..1]) == Do(e, st, c) && Run(e, st, [c][..0]) == st
  {
    assert [c][..1] == [c] && [c][..0] == [];
    assert Run(e, st, [c]) == Run(e, Do(e, st, c), []);
  }

  lemma {:induction false} NoneUnhandled(k: Tracking, order: seq<TxId>)
    requires Unhandled(k, order) == []
    ensures forall tx :: tx in order ==> !IsUnhandled(k, tx)
  {
    if order != [] {
      NoneUnhandled(k, order[1..]);
    }
  }
}
