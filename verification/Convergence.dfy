/** What LIB and LIVE are meant to hold at a saved position: replay the finalized
    history, then the surviving history, then the queue, from an empty database,
    skipping what is rejected. */
module Convergence {
  import opened SqlHistory
  import opened Commits
  import opened EventEffects

  /** The finalized history, replayed from an empty database. */
  function Base(e: Engine, v: View): Replica
  {
    Replay(e, EmptyReplica(e), Writes(v.finalized))
  }

  /** The surviving history on top of it. */
  function Tip(e: Engine, v: View): Replica
  {
    Replay(e, Base(e, v), Writes(v.history))
  }

  /** The queue on top of both. */
  function Expected(e: Engine, v: View, queue: seq<Queued>): Replica
  {
    Replay(e, Tip(e, v), QueuedWrites(queue))
  }

  lemma {:induction false} ExpectedIsOneReplay(e: Engine, v: View, queue: seq<Queued>)
    ensures Expected(e, v, queue)
         == Replay(e, EmptyReplica(e), Writes(v.finalized) + Writes(v.history) + QueuedWrites(queue))
  {
    ReplayConcat(e, EmptyReplica(e), Writes(v.finalized), Writes(v.history));
    ReplayConcat(e, EmptyReplica(e), Writes(v.finalized) + Writes(v.history), QueuedWrites(queue));
  }

  function HistoryBeyond(fs: seq<Inscription>, n: nat): seq<Inscription>
  {
    if n <= |fs| then fs[n..] else []
  }

  /** The sequencer's contract for an event that orphans nothing: finalization
      takes a prefix of the history, or all of it and more (backfill), and the
      adopted inscriptions join at the tip. */
  ghost predicate Extends(v: View, ev: Event)
  {
    && ev.view.finalized == v.finalized + ev.finalized
    && (|| (ev.finalized <= v.history && ev.view.history == v.history[|ev.finalized|..] + ev.adopted)
        || (v.history <= ev.finalized && ev.view.history == ev.adopted))
  }

  /** The writes of an event that are new to the position `v`. */
  function NewWrites(v: View, ev: Event): seq<Write>
  {
    Writes(HistoryBeyond(ev.finalized, |v.history|)) + Writes(ev.adopted)
  }

  /** Both databases agree with the position and the queue. */
  ghost predicate InAgreement(e: Engine, p: Pair, v: View, queue: seq<Queued>)
  {
    p == Pair(Base(e, v), Expected(e, v, queue))
  }

  lemma {:induction false} BaseAdvances(e: Engine, v: View, ev: Event)
    requires ev.view.finalized == v.finalized + ev.finalized
    ensures Base(e, ev.view) == Replay(e, Base(e, v), Writes(ev.finalized))
  {
    WritesConcat(v.finalized, ev.finalized);
    ReplayConcat(e, EmptyReplica(e), Writes(v.finalized), Writes(ev.finalized));
  }
}
