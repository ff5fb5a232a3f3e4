/** The durable state of one participant and the SQLite transactions that change
    it. LIB, LIVE and control are separate files: each transaction below commits
    in one file, and a crash may fall between any two of them. */
module Commits {
  import opened Wrappers
  import opened SqlHistory
  import opened WriteStatuses

  /** A queued write and the length of its stored payload. */
  datatype Queued = Queued(write: Write, bytes: nat)

  /** A position of the sequencer: the finalized channel history and the
      surviving history above it. A saved checkpoint restores one. */
  datatype View = View(finalized: seq<Inscription>, history: seq<Inscription>)

  datatype Control = Control(checkpoint: View, rebuild: bool, rejected: set<(MsgId, Option<TxId>)>, tracking: Tracking)

  /** `queue` is the publication queue, stored in LIVE with the effects. */
  datatype Store = Store(lib: Replica, live: Replica, queue: seq<Queued>, control: Control)

  function QueuedWrites(queue: seq<Queued>): (ws: seq<Write>)
    ensures |ws| == |queue|
  {
    if queue == [] then [] else [queue[0].write] + QueuedWrites(queue[1..])
  }

  function Remove(queue: seq<Queued>, ids: seq<TxId>): seq<Queued>
  {
    if queue == [] then []
    else if queue[0].write.tx in ids then Remove(queue[1..], ids)
    else [queue[0]] + Remove(queue[1..], ids)
  }

  datatype Commit =
    /** A local transaction: its effects, its marker and its queue entry. */
    | CommitLocal(q: Queued)
    /** The two halves of `complete_batch`. */
    | SavePublication(view: View, msg: MsgId, batch: seq<Queued>)
    | ClearQueue(batch: seq<Queued>)
    /** A finalized write, to LIB and then to LIVE. */
    | FinalizeLib(w: Write)
    | FinalizeLive(w: Write)
    | RecordFinalizeRejection(msg: MsgId, w: Write)
    /** An adopted write, to LIVE only. */
    | AdoptLive(w: Write)
    | RecordAdoptRejection(msg: MsgId, w: Write)
    /** A finalized write during a rebuild, to LIB only. */
    | RebuildLib(w: Write)
    | RecordLibRejection(msg: MsgId, w: Write)
    /** A payload that cannot be decoded. */
    | RecordPayloadRejection(msg: MsgId)
    | RequireRebuild
    | DisplaceQueued(q: Queued)
    | UpdateStatuses(finalized: seq<MsgId>, orphaned: seq<Observed>, adopted: seq<Observed>)
    /** The last write of `replayed` is rejected by the image being rebuilt. */
    | RecordRebuildRejection(msg: MsgId, replayed: seq<Write>)
    /** Replaces LIVE by LIB with `replayed` on top, and an empty queue. */
    | InstallRebuild(replayed: seq<Write>)
    | SaveCheckpoint(view: View)
    | SaveRebuiltCheckpoint(view: View)
    | HandleDisplacement(tx: TxId, id: nat)

  function RejectIf(st: Store, condition: bool, msg: MsgId, tx: Option<TxId>): Store
  {
    if condition then st.(control := st.control.(rejected := st.control.rejected + {(msg, tx)})) else st
  }

  function WithTracking(st: Store, k: Tracking): Store
  {
    st.(control := st.control.(tracking := k))
  }

  /** The effect of one committed transaction. */
  function Do(e: Engine, st: Store, c: Commit): Store
  {
    match c
    case CommitLocal(q) =>
      st.(live := ApplyWrite(e, st.live, q.write), queue := st.queue + [q])
    case SavePublication(view, msg, batch) =>
      var saved := st.(control := st.control.(checkpoint := view));
      WithTracking(saved, PublishAll(st.control.tracking, msg, QueuedWrites(batch)))
    case ClearQueue(batch) =>
      st.(queue := Remove(st.queue, Ids(QueuedWrites(batch))))
    case FinalizeLib(w) =>
      // An id that LIVE knows with another content is rejected before LIB runs.
      if Mismatched(st.live, w) then st else st.(lib := ApplyWrite(e, st.lib, w))
    case FinalizeLive(w) =>
      // LIVE runs only when LIB did not reject.
      if IsApplied(st.lib, w) then st.(live := ApplyWrite(e, st.live, w)) else st
    case RecordFinalizeRejection(msg, w) =>
      RejectIf(st, !(IsApplied(st.lib, w) && IsApplied(st.live, w)), msg, Some(w.tx))
    case AdoptLive(w) =>
      st.(live := ApplyWrite(e, st.live, w))
    case RecordAdoptRejection(msg, w) =>
      RejectIf(st, !IsApplied(st.live, w), msg, Some(w.tx))
    case RebuildLib(w) =>
      st.(lib := ApplyWrite(e, st.lib, w))
    case RecordLibRejection(msg, w) =>
      RejectIf(st, !IsApplied(st.lib, w), msg, Some(w.tx))
    case RecordPayloadRejection(msg) =>
      RejectIf(st, true, msg, None)
    case RequireRebuild =>
      st.(control := st.control.(rebuild := true))
    case DisplaceQueued(q) =>
      WithTracking(st, RecordDisplacement(st.control.tracking, q.write, PendingWriteInvalidated))
    case UpdateStatuses(finalized, orphaned, adopted) =>
      (match UpdateWriteStatuses(st.control.tracking, finalized, orphaned, adopted)
       case None => st
       case Some(k) => WithTracking(st, k))
    case RecordRebuildRejection(msg, replayed) =>
      if replayed == [] then st
      else
        var w := replayed[|replayed| - 1];
        RejectIf(st, !IsApplied(Replay(e, st.lib, replayed), w), msg, Some(w.tx))
    case InstallRebuild(replayed) =>
      st.(live := Replay(e, st.lib, replayed), queue := [])
    case SaveCheckpoint(view) =>
      st.(control := st.control.(checkpoint := view))
    case SaveRebuiltCheckpoint(view) =>
      st.(control := st.control.(checkpoint := view, rebuild := false))
    case HandleDisplacement(tx, id) =>
      WithTracking(st, MarkHandled(st.control.tracking, tx, id))
  }

  function Run(e: Engine, st: Store, cs: seq<Commit>): Store
    decreases |cs|
  {
    if cs == [] then st else Run(e, Do(e, st, cs[0]), cs[1..])
  }

  lemma {:induction false} RunConcat(e: Engine, st: Store, xs: seq<Commit>, ys: seq<Commit>)
    ensures Run(e, st, xs + ys) == Run(e, Run(e, st, xs), ys)
    decreases |xs|
  {
    if xs == [] {
      assert xs + ys == ys;
    } else {
      assert (xs + ys)[1..] == xs[1..] + ys;
      RunConcat(e, Do(e, st, xs[0]), xs[1..], ys);
    }
  }

  lemma {:induction false} RunNext(e: Engine, st: Store, cs: seq<Commit>, i: nat)
    requires i < |cs|
    ensures Run(e, st, cs[..i + 1]) == Do(e, Run(e, st, cs[..i]), cs[i])
  {
    assert cs[..i + 1] == cs[..i] + [cs[i]];
    RunConcat(e, st, cs[..i], [cs[i]]);
    assert Run(e, Run(e, st, cs[..i]), [cs[i]]) == Run(e, Do(e, Run(e, st, cs[..i]), cs[i]), []);
  }

  // ---------------------------------------------------------------------------
  // Channel events

  /** A processed-block event, reduced to its λSQL inscriptions. `chain` is the
      canonical chain that a conflict carries; `available` tells whether the
      sequencer can supply its history; `view` is the position the event's
      checkpoint stands for. */
  datatype Event = Event(adopted: seq<Inscription>, orphaned: seq<Inscription>, finalized: seq<Inscription>,
                         chain: Option<seq<Inscription>>, available: bool, view: View)

  datatype Plan = ApplyChanges | Rebuild(displaced: seq<Queued>)

  /** LIVE applied this write, or the control store recorded its rejection. */
  predicate LiveProcessed(st: Store, o: Observed)
  {
    IsApplied(st.live, o.write) || (o.msg, Some(o.write.tx)) in st.control.rejected
  }

  predicate ChangesHistoryBeforePending(st: Store, ev: Event)
  {
    ev.orphaned != [] || exists o :: o in Observe(ev.adopted + ev.finalized) && !LiveProcessed(st, o)
  }

  function ApplicationPlan(st: Store, ev: Event): Plan
  {
    if st.control.rebuild then Rebuild(st.queue)
    else if st.queue != [] && ChangesHistoryBeforePending(st, ev) then Rebuild(st.queue)
    else if ev.orphaned != [] then Rebuild([])
    else ApplyChanges
  }

  function Messages(history: seq<Inscription>): seq<MsgId>
  {
    if history == [] then [] else [history[0].msg] + Messages(history[1..])
  }

  datatype Target = LibAndLive | LiveOnly | LibOnly

  function WriteCommits(t: Target, msg: MsgId, w: Write): seq<Commit>
  {
    match t
    case LibAndLive => [FinalizeLib(w), FinalizeLive(w), RecordFinalizeRejection(msg, w)]
    case LiveOnly => [AdoptLive(w), RecordAdoptRejection(msg, w)]
    case LibOnly => [RebuildLib(w), RecordLibRejection(msg, w)]
  }

  function BatchCommits(t: Target, msg: MsgId, ws: seq<Write>): seq<Commit>
  {
    if ws == [] then [] else WriteCommits(t, msg, ws[0]) + BatchCommits(t, msg, ws[1..])
  }

  function InscriptionCommits(t: Target, i: Inscription): seq<Commit>
  {
    match i.batch
    case None => [RecordPayloadRejection(i.msg)]
    case Some(ws) => BatchCommits(t, i.msg, ws)
  }

  function ApplyCommits(t: Target, history: seq<Inscription>): seq<Commit>
  {
    if history == [] then [] else InscriptionCommits(t, history[0]) + ApplyCommits(t, history[1..])
  }

  function DisplaceCommits(queue: seq<Queued>): seq<Commit>
  {
    if queue == [] then [] else [DisplaceQueued(queue[0])] + DisplaceCommits(queue[1..])
  }

  /** Undecodable payloads met while observing the writes of an event. */
  function ObserveCommits(history: seq<Inscription>): seq<Commit>
  {
    if history == [] then []
    else
      (if history[0].batch.None? then [RecordPayloadRejection(history[0].msg)] else []) + ObserveCommits(history[1..])
  }

  function StatusCommits(ev: Event, adopted: seq<Inscription>): seq<Commit>
  {
    ObserveCommits(ev.orphaned) + ObserveCommits(adopted)
      + [UpdateStatuses(Messages(ev.finalized), Observe(ev.orphaned), Observe(adopted))]
  }

  function ReplayBatchCommits(msg: MsgId, before: seq<Write>, ws: seq<Write>): seq<Commit>
    decreases |ws|
  {
    if ws == [] then []
    else [RecordRebuildRejection(msg, before + [ws[0]])] + ReplayBatchCommits(msg, before + [ws[0]], ws[1..])
  }

  function ReplayPart(before: seq<Write>, i: Inscription): seq<Commit>
  {
    match i.batch
    case None => [RecordPayloadRejection(i.msg)]
    case Some(ws) => ReplayBatchCommits(i.msg, before, ws)
  }

  /** The rejections that `rebuild_live` records while it replays `history`. */
  function ReplayCommits(before: seq<Write>, history: seq<Inscription>): seq<Commit>
    decreases |history|
  {
    if history == [] then []
    else ReplayPart(before, history[0]) + ReplayCommits(before + BatchWrites(history[0]), history[1..])
  }

  function DirectCommits(ev: Event): seq<Commit>
  {
    ApplyCommits(LibAndLive, ev.finalized) + ApplyCommits(LiveOnly, ev.adopted)
      + StatusCommits(ev, ev.adopted) + [SaveCheckpoint(ev.view)]
  }

  function HistoryFor(ev: Event): Option<seq<Inscription>>
  {
    if ev.chain.Some? then ev.chain
    else if ev.available then Some(ev.view.history)
    else None
  }

  function PrepareCommits(ev: Event, displaced: seq<Queued>): seq<Commit>
  {
    [RequireRebuild] + DisplaceCommits(displaced) + ApplyCommits(LibOnly, ev.finalized)
  }

  function FinishCommits(ev: Event): seq<Commit>
  {
    match HistoryFor(ev)
    case None => StatusCommits(ev, ev.adopted) + [SaveCheckpoint(ev.view)]
    case Some(history) =>
      StatusCommits(ev, history) + ReplayCommits([], history)
        + [InstallRebuild(Writes(history)), SaveRebuiltCheckpoint(ev.view)]
  }

  function RebuildCommits(ev: Event, displaced: seq<Queued>): seq<Commit>
  {
    PrepareCommits(ev, displaced) + FinishCommits(ev)
  }

  /** Every transaction that one attempt at an event commits, in order. */
  function EventCommits(st: Store, ev: Event): seq<Commit>
  {
    match ApplicationPlan(st, ev)
    case ApplyChanges => DirectCommits(ev)
    case Rebuild(displaced) => RebuildCommits(ev, displaced)
  }
}
