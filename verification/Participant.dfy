/** One participant as a state machine: local writes, publication, channel events,
    failures, crashes and restarts, over the durable stores of `Commits`. */
module Participant {
  import opened Wrappers
  import opened SqlHistory
  import opened WriteStatuses
  import opened Commits
  import opened EventEffects
  import opened Convergence
  import opened Resumption

  datatype PublishState = Idle | CheckpointPending(batch: seq<Queued>, msg: MsgId, view: View)

  /** The volatile state of the runtime. `retrying` holds the event that is pending
      retry. */
  datatype Process =
    | Down
    | Up(ready: bool, readyCheckpointPending: bool, retrying: Option<Event>, publish: PublishState)

  /** An attempt at an event committed some transactions and its checkpoint is not
      saved: the finalized writes that LIB has executed above the saved base, and the
      new writes that LIVE has executed above the saved history. */
  datatype Interrupted = Interrupted(lib: seq<Write>, live: seq<Write>)

  /** `committed` lists every local write in commit order. */
  datatype System = System(store: Store, process: Process, interrupted: Option<Interrupted>, committed: seq<Write>)

  datatype Config = Config(maxPending: nat, maxBytes: nat, maxBatch: nat)

  function QueueBytes(queue: seq<Queued>): nat
  {
    if queue == [] then 0 else queue[0].bytes + QueueBytes(queue[1..])
  }

  // ---------------------------------------------------------------------------
  // Commit lists of the remaining operations

  function CompleteBatch(view: View, msg: MsgId, batch: seq<Queued>): seq<Commit>
  {
    [SavePublication(view, msg, batch), ClearQueue(batch)]
  }

  /** `matches_pending`: the saved publication is a prefix of the queue. */
  function MatchesPending(i: Inscription, queue: seq<Queued>): Option<nat>
  {
    match i.batch
    case None => None
    case Some(ws) => if ws <= QueuedWrites(queue) then Some(|ws|) else None
  }

  /** `recover_published_write`: complete the first saved publication that matches
      the queue. */
  function RecoverCommits(view: View, history: seq<Inscription>, queue: seq<Queued>): seq<Commit>
    decreases |history|
  {
    if history == [] then []
    else match MatchesPending(history[0], queue)
      case None => RecoverCommits(view, history[1..], queue)
      case Some(n) => CompleteBatch(view, history[0].msg, if n <= |queue| then queue[..n] else [])
  }

  function CountLib(cs: seq<Commit>): nat
  {
    if cs == [] then 0 else (if cs[0].RebuildLib? then 1 else 0) + CountLib(cs[1..])
  }

  // ---------------------------------------------------------------------------
  // Actions

  datatype Action =
    /** A local transaction commits. */
    | Execute(q: Queued)
    /** The statements of a displaced write are executed again, as a new write; `marked`
        is false when the second commit, in the control store, fails. */
    | RetryDisplacement(tx: TxId, id: nat, q: Queued, marked: bool)
    | MarkDisplacementHandled(tx: TxId, id: nat)
    /** The sequencer accepts the first `n` queued writes as message `msg`. */
    | AcceptPublication(n: nat, msg: MsgId)
    /** `complete_batch`, of which the first `k` transactions commit. */
    | PersistPublication(k: nat)
    | ReadyEvent
    /** One attempt at a processed-block event, of which `k` transactions commit. */
    | AttemptEvent(event: Event, k: nat)
    | Crash
    /** Opening the databases, and the recovery that `run` starts with. */
    | Restart(k: nat)

  /** The guards of `ensure_ready_to_write`. */
  predicate ReadyToWrite(s: System)
  {
    && s.process.Up? && s.process.retrying.None? && s.process.publish.Idle?
    && s.process.ready && !s.process.readyCheckpointPending
    && !s.store.control.rebuild
  }

  /** A generated id occurs nowhere yet. */
  ghost predicate FreshId(s: System, tx: TxId)
  {
    tx !in Ids(s.committed) && tx !in ChannelIds(s.store.control.checkpoint)
  }

  /** `commit_local_write` accepts the write. */
  ghost predicate CanCommitLocal(e: Engine, cfg: Config, s: System, q: Queued)
  {
    && |s.store.queue| < cfg.maxPending
    && QueueBytes(s.store.queue) + q.bytes <= cfg.maxBytes
    && q.write.tx !in s.store.live.applied
    && e.run(s.store.live.data, q.write.content).Some?
    && FreshId(s, q.write.tx)
  }

  function ChannelIds(v: View): seq<TxId>
  {
    Ids(Writes(v.finalized) + Writes(v.history))
  }

  predicate NonEmptyBatches(history: seq<Inscription>)
  {
    forall i :: i in history && i.batch.Some? ==> i.batch.value != []
  }

  predicate ContradictsPublication(k: Tracking, o: Observed)
  {
    o.write.tx in k.locals && k.locals[o.write.tx].msg == o.msg && k.locals[o.write.tx].content != o.write.content
  }

  /** What the sequencer promises about an event delivered at the saved position:
      finalization advances the finalized history; a conflict carries the whole new
      history; unpublished ids are unknown to the channel; a message id names one
      payload. */
  ghost predicate SequencerContract(st: Store, ev: Event)
  {
    var v := st.control.checkpoint;
    && ev.view.finalized == v.finalized + ev.finalized
    && (ev.orphaned != [] ==> ev.chain.Some?)
    && (ev.chain.Some? ==> ev.chain.value == ev.view.history)
    && NonEmptyBatches(ev.view.history)
    && (forall w :: w in QueuedWrites(st.queue) ==>
          && w.tx !in Ids(Writes(ev.finalized)) && w.tx !in Ids(Writes(ev.adopted))
          && w.tx !in Ids(Writes(ev.view.history)))
    && (forall o :: o in Observe(ev.orphaned) ==> !ContradictsPublication(st.control.tracking, o))
  }

  ghost predicate AllHandled(k: Tracking)
  {
    forall tx :: !IsUnhandled(k, tx)
  }

  ghost predicate Enabled(e: Engine, cfg: Config, s: System, a: Action)
  {
    match a
    case Execute(q) =>
      && ReadyToWrite(s) && CanCommitLocal(e, cfg, s, q)
      && AllHandled(s.store.control.tracking)
    case RetryDisplacement(tx, id, q, marked) =>
      var k := s.store.control.tracking;
      && ReadyToWrite(s) && CanCommitLocal(e, cfg, s, q)
      && IsUnhandled(k, tx) && k.row[tx].displacement.Some? && k.row[tx].displacement.value.id == id
      && e.statements(q.write.content) == e.statements(k.row[tx].displacement.value.payload.content)
    case MarkDisplacementHandled(tx, id) =>
      s.process.Up? && s.process.retrying.None?
    case AcceptPublication(n, msg) =>
      && ReadyToWrite(s)
      && 1 <= n <= |s.store.queue| && n <= cfg.maxBatch
    case PersistPublication(k) =>
      s.process.Up? && s.process.publish.CheckpointPending? && k <= 2
    case ReadyEvent =>
      s.process.Up? && s.process.retrying.None? && s.process.publish.Idle?
    case AttemptEvent(ev, k) =>
      && s.process.Up? && s.process.publish.Idle?
      && (s.process.retrying.Some? ==> s.process.retrying == Some(ev))
      && SequencerContract(s.store, ev)
      && k <= |EventCommits(s.store, ev)|
    case Crash => s.process.Up?
    case Restart(k) =>
      var v := s.store.control.checkpoint;
      s.process.Down? && k <= |RecoverCommits(v, v.history, s.store.queue)|
  }

  // ---------------------------------------------------------------------------
  // Interrupted events

  function Done(s: System): Interrupted
  {
    match s.interrupted
    case None => Interrupted([], [])
    case Some(i) => i
  }

  function Take(ws: seq<Write>, n: int): (taken: seq<Write>)
    ensures taken <= ws
  {
    if n <= 0 then [] else if n <= |ws| then ws[..n] else ws
  }

  /** What LIVE has executed, of the new writes `ns`, when it has counted `n` of them: it
      may have caught up early with one more. */
  ghost function LiveDone(e: Engine, tip: Replica, ns: seq<Write>, n: int, live: Replica): (done: seq<Write>)
    ensures done <= ns
  {
    if live == Replay(e, tip, Take(ns, n)) then Take(ns, n) else Take(ns, n + 1)
  }

  /** What a direct attempt has executed after `m` executions, with LIVE as it is. */
  ghost function StoppedDirectly(e: Engine, v: View, ev: Event, i: Interrupted, queued: bool, m: nat,
                                 live: Replica): Interrupted
  {
    var fs, ns := Writes(ev.finalized), NewWrites(v, ev);
    Interrupted(Take(fs, Later(|i.lib|, LibCount(|fs|, m))),
                if queued then []
                else LiveDone(e, Tip(e, v), ns, Later(|i.live|, LiveCount(|fs|, m) - Overlap(v, ev)), live))
  }

  /** What an attempt that stopped after `k` transactions, in the store `st`, has
      executed. */
  ghost function Stopped(e: Engine, s: System, ev: Event, k: nat, st: Store): Interrupted
    requires k <= |EventCommits(s.store, ev)|
  {
    var cs := EventCommits(s.store, ev)[..k];
    if ApplicationPlan(s.store, ev).Rebuild? then
      Interrupted(Take(Writes(ev.finalized), Later(|Done(s).lib|, CountLib(cs))), [])
    else
      StoppedDirectly(e, s.store.control.checkpoint, ev, Done(s), s.store.queue != [], |Executions(cs)|, st.live)
  }

  /** `record_applied_event` for a processed-block event. */
  function Applied(p: Process): Process
    requires p.Up?
  {
    p.(retrying := None, ready := p.ready || p.readyCheckpointPending, readyCheckpointPending := false)
  }

  ghost function Step(e: Engine, s: System, a: Action): System
  {
    match a
    case Execute(q) =>
      s.(store := Do(e, s.store, CommitLocal(q)), committed := s.committed + [q.write])
    case RetryDisplacement(tx, id, q, marked) =>
      var written := Do(e, s.store, CommitLocal(q));
      s.(store := if marked then Do(e, written, HandleDisplacement(tx, id)) else written,
         committed := s.committed + [q.write])
    case MarkDisplacementHandled(tx, id) =>
      s.(store := Do(e, s.store, HandleDisplacement(tx, id)))
    case AcceptPublication(n, msg) =>
      if !s.process.Up? || n > |s.store.queue| then s else
      var v, batch := s.store.control.checkpoint, s.store.queue[..n];
      var accepted := View(v.finalized, v.history + [Inscription(msg, Some(QueuedWrites(batch)))]);
      s.(process := s.process.(publish := CheckpointPending(batch, msg, accepted)))
    case PersistPublication(k) =>
      if !s.process.Up? || !s.process.publish.CheckpointPending? || k > 2 then s else
      var CheckpointPending(batch, msg, view) := s.process.publish;
      s.(store := Run(e, s.store, CompleteBatch(view, msg, batch)[..k]),
         process := if k == 2 then s.process.(publish := Idle) else s.process)
    case ReadyEvent =>
      if !s.process.Up? then s else s.(process := s.process.(readyCheckpointPending := true))
    case AttemptEvent(ev, k) =>
      if !s.process.Up? || k > |EventCommits(s.store, ev)| then s else
      var store := Run(e, s.store, EventCommits(s.store, ev)[..k]);
      if k == |EventCommits(s.store, ev)| then
        System(store, Applied(s.process), None, s.committed)
      else
        System(store, s.process.(retrying := Some(ev)),
               if k == 0 then s.interrupted else Some(Stopped(e, s, ev, k, store)), s.committed)
    case Crash => s.(process := Down)
    case Restart(k) =>
      var cs := RecoverCommits(s.store.control.checkpoint, s.store.control.checkpoint.history, s.store.queue);
      if k > |cs| then s else
      s.(store := Run(e, s.store, cs[..k]), process := if k == |cs| then Up(false, false, None, Idle) else Down)
  }

  ghost function Initial(e: Engine): System
  {
    var empty := EmptyReplica(e);
    System(Store(empty, empty, [], Control(View([], []), false, {}, Tracking([], map[], map[], 0))), Down, None, [])
  }

  /** A run: its states, and the actions between them. */
  ghost predicate IsRun(e: Engine, cfg: Config, states: seq<System>, actions: seq<Action>)
  {
    && |states| == |actions| + 1
    && states[0] == Initial(e)
    && forall i :: 0 <= i < |actions| ==>
         Enabled(e, cfg, states[i], actions[i]) && states[i + 1] == Step(e, states[i], actions[i])
  }

  // ---------------------------------------------------------------------------
  // When the databases converge

  /** An event that is applied directly extends the saved history. A backfill that
      finalizes another branch before its orphans are reported does not. */
  ghost predicate ExtendsHistory(st: Store, ev: Event)
  {
    ApplicationPlan(st, ev).ApplyChanges? ==> Extends(st.control.checkpoint, ev)
  }

  /** The event carries what the interrupted attempt executed: on LIB always, and on
      LIVE if it is applied directly. The interrupted event itself does. */
  ghost predicate Continues(st: Store, i: Interrupted, ev: Event)
  {
    && i.lib <= Writes(ev.finalized)
    && (ApplicationPlan(st, ev).ApplyChanges? && st.queue == [] ==> i.live <= NewWrites(st.control.checkpoint, ev))
  }

  /** What the event executes again is skipped or rejected again. */
  ghost predicate RejectionsRepeat(e: Engine, st: Store, i: Interrupted, ev: Event)
  {
    if ApplicationPlan(st, ev).ApplyChanges? then
      Repeats(e, st.control.checkpoint, ev, PairOf(st), |i.lib|, |i.live|)
    else
      forall w :: w in i.lib ==> Quiet(e, st.lib, w)
  }

  /** The inscriptions that the event adds to the saved history. */
  function NewInscriptions(v: View, ev: Event): seq<Inscription>
  {
    HistoryBeyond(ev.finalized, |v.history|) + ev.adopted
  }

  predicate RejectionRecorded(st: Store, o: Observed)
  {
    (o.msg, Some(o.write.tx)) in st.control.rejected
  }

  /** When an event is applied directly although writes are queued, a new write whose
      rejection is on record, perhaps from an abandoned branch, has no effect below the
      queued writes and, if adopted, none above them. Nothing is asked of other
      writes. */
  ghost predicate StaleRejectionsHold(e: Engine, st: Store, ev: Event)
  {
    var v := st.control.checkpoint;
    st.queue != [] && ApplicationPlan(st, ev).ApplyChanges? ==>
      && (forall o :: o in Observe(NewInscriptions(v, ev)) && RejectionRecorded(st, o) ==>
            IsApplied(st.live, o.write) || Quiet(e, Tip(e, v), o.write))
      && (forall o :: o in Observe(ev.adopted) && RejectionRecorded(st, o) ==>
            IsApplied(st.live, o.write) || Quiet(e, st.live, o.write))
  }

  ghost predicate Steady(e: Engine, s: System, a: Action)
  {
    a.AttemptEvent? ==>
      && ExtendsHistory(s.store, a.event)
      && Continues(s.store, Done(s), a.event)
      && RejectionsRepeat(e, s.store, Done(s), a.event)
      && StaleRejectionsHold(e, s.store, a.event)
  }

  /** A run in which every event finds the databases as it needs them. */
  ghost predicate IsSteadyRun(e: Engine, cfg: Config, states: seq<System>, actions: seq<Action>)
  {
    IsRun(e, cfg, states, actions) && forall i :: 0 <= i < |actions| ==> Steady(e, states[i], actions[i])
  }
}
