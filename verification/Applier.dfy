/** Applying one channel event to the databases. Each method commits the
    transactions of its list in `Commits`, or a prefix of them when one fails. */
module Applier {
  import opened Wrappers
  import opened SqlHistory
  import opened WriteStatuses
  import opened Commits
  import opened StatusTruth
  import opened DatabasesClass

  // ---------------------------------------------------------------------------
  // Lists of commits, piece by piece

  lemma {:induction false} BatchCommitsConcat(t: Target, msg: MsgId, xs: seq<Write>, ys: seq<Write>)
    ensures BatchCommits(t, msg, xs + ys) == BatchCommits(t, msg, xs) + BatchCommits(t, msg, ys)
  {
    if xs == [] {
      assert xs + ys == ys;
    } else {
      assert (xs + ys)[1..] == xs[1..] + ys;
      BatchCommitsConcat(t, msg, xs[1..], ys);
    }
  }

  lemma {:induction false} BatchCommitsAround(t: Target, msg: MsgId, ws: seq<Write>, i: nat)
    requires i < |ws|
    ensures BatchCommits(t, msg, ws[..i + 1]) == BatchCommits(t, msg, ws[..i]) + WriteCommits(t, msg, ws[i])
    ensures BatchCommits(t, msg, ws)
         == BatchCommits(t, msg, ws[..i]) + WriteCommits(t, msg, ws[i]) + BatchCommits(t, msg, ws[i + 1..])
  {
    assert ws[..i + 1] == ws[..i] + [ws[i]] && ws == ws[..i + 1] + ws[i + 1..];
    BatchCommitsConcat(t, msg, ws[..i], [ws[i]]);
    BatchCommitsConcat(t, msg, ws[..i + 1], ws[i + 1..]);
    assert BatchCommits(t, msg, [ws[i]]) == WriteCommits(t, msg, ws[i]) + BatchCommits(t, msg, []);
  }

  lemma {:induction false} ApplyCommitsConcat(t: Target, xs: seq<Inscription>, ys: seq<Inscription>)
    ensures ApplyCommits(t, xs + ys) == ApplyCommits(t, xs) + ApplyCommits(t, ys)
  {
    if xs == [] {
      assert xs + ys == ys;
    } else {
      assert (xs + ys)[1..] == xs[1..] + ys;
      ApplyCommitsConcat(t, xs[1..], ys);
    }
  }

  lemma {:induction false} ApplyCommitsAround(t: Target, history: seq<Inscription>, i: nat)
    requires i < |history|
    ensures ApplyCommits(t, history[..i + 1]) == ApplyCommits(t, history[..i]) + InscriptionCommits(t, history[i])
    ensures ApplyCommits(t, history)
         == ApplyCommits(t, history[..i]) + InscriptionCommits(t, history[i]) + ApplyCommits(t, history[i + 1..])
  {
    assert history[..i + 1] == history[..i] + [history[i]] && history == history[..i + 1] + history[i + 1..];
    ApplyCommitsConcat(t, history[..i], [history[i]]);
    ApplyCommitsConcat(t, history[..i + 1], history[i + 1..]);
    assert ApplyCommits(t, [history[i]]) == InscriptionCommits(t, history[i]) + ApplyCommits(t, []);
  }

  /** The log grew by a prefix of `cs`, by all of it exactly when `done`. */
  ghost predicate Grew(before: seq<Commit>, log: seq<Commit>, cs: seq<Commit>, done: bool)
  {
    && |before| <= |log| <= |before| + |cs|
    && log == before + cs[..|log| - |before|]
    && (done <==> |log| == |before| + |cs|)
  }

  /** Stopping inside one piece of a list. */
  lemma {:induction false} GrewWithin(before: seq<Commit>, mid: seq<Commit>, log: seq<Commit>,
                                      first: seq<Commit>, part: seq<Commit>, rest: seq<Commit>, done: bool)
    requires Grew(before, mid, first, true) && Grew(mid, log, part, done)
    ensures done ==> Grew(before, log, first + part, true)
    ensures !done ==> Grew(before, log, first + part + rest, false)
  {
    var k := |log| - |mid|;
    assert mid == before + first by {
      assert first[..|first|] == first;
    }
    assert (first + part)[..|first| + k] == first + part[..k];
    assert (first + part + rest)[..|first| + k] == first + part[..k];
  }

  /** Stopping in the first of two pieces, or having finished it. */
  lemma {:induction false} GrewFirst(before: seq<Commit>, log: seq<Commit>, first: seq<Commit>, rest: seq<Commit>,
                                     done: bool)
    requires Grew(before, log, first, done)
    ensures !done ==> Grew(before, log, first + rest, false)
  {
    if !done {
      assert (first + rest)[..|log| - |before|] == first[..|log| - |before|];
    }
  }

  /** Stopping in the last of two pieces, or having finished both. */
  lemma {:induction false} GrewLast(before: seq<Commit>, mid: seq<Commit>, log: seq<Commit>, first: seq<Commit>,
                                    last: seq<Commit>, done: bool)
    requires Grew(before, mid, first, true) && Grew(mid, log, last, done)
    ensures Grew(before, log, first + last, done)
  {
    assert first[..|first|] == first;
    assert (first + last)[..|log| - |before|] == first + last[..|log| - |mid|];
  }

  // ---------------------------------------------------------------------------
  // Inscriptions

  method ApplyWriteTo(db: Databases, t: Target, msg: MsgId, w: Write) returns (r: Outcome)
    requires db.Valid()
    modifies db
    ensures db.Valid() && Grew(old(db.log), db.log, WriteCommits(t, msg, w), r.Done?) && !r.InvalidLocalState?
    ensures db.Spent(old(db.budget), old(db.log)) && (r.StorageFailure? ==> db.budget == 0)
    ensures db.control.tracking == old(db.control.tracking)
  {
    match t
    case LiveOnly => r := db.ApplyAdoptedWrite(msg, w);
    case LibOnly => r := db.ApplyFinalizedWriteToLib(msg, w);
    case LibAndLive => r := db.ApplyFinalizedWrite(msg, w);
  }

  /** Decodes and applies one inscription; a rejected write does not stop the
      others of its batch. */
  method ApplyInscription(db: Databases, i: Inscription, t: Target) returns (r: Outcome)
    requires db.Valid()
    modifies db
    ensures db.Valid() && Grew(old(db.log), db.log, InscriptionCommits(t, i), r.Done?) && !r.InvalidLocalState?
    ensures db.Spent(old(db.budget), old(db.log)) && (r.StorageFailure? ==> db.budget == 0)
    ensures db.control.tracking == old(db.control.tracking)
  {
    if i.batch.None? {
      r := db.RecordRejectedWrite(i.msg, None, RecordPayloadRejection(i.msg));
      return;
    }
    var ws := i.batch.value;
    ghost var before := db.log;
    assert ws[..0] == [] && BatchCommits(t, i.msg, []) == [];
    for n := 0 to |ws|
      invariant db.Spent(old(db.budget), old(db.log))
      invariant db.Valid() && Grew(before, db.log, BatchCommits(t, i.msg, ws[..n]), true)
      invariant db.control.tracking == old(db.control.tracking)
    {
      ghost var mid := db.log;
      r := ApplyWriteTo(db, t, i.msg, ws[n]);
      BatchCommitsAround(t, i.msg, ws, n);
      GrewWithin(before, mid, db.log, BatchCommits(t, i.msg, ws[..n]), WriteCommits(t, i.msg, ws[n]),
                 BatchCommits(t, i.msg, ws[n + 1..]), r.Done?);
      if !r.Done? {
        return;
      }
    }
    assert ws[..|ws|] == ws;
    r := Done;
  }

  method ApplyInscriptions(db: Databases, history: seq<Inscription>, t: Target) returns (r: Outcome)
    requires db.Valid()
    modifies db
    ensures db.Valid() && Grew(old(db.log), db.log, ApplyCommits(t, history), r.Done?) && !r.InvalidLocalState?
    ensures db.Spent(old(db.budget), old(db.log)) && (r.StorageFailure? ==> db.budget == 0)
    ensures db.control.tracking == old(db.control.tracking)
  {
    ghost var before := db.log;
    assert history[..0] == [];
    for n := 0 to |history|
      invariant db.Spent(old(db.budget), old(db.log))
      invariant db.Valid() && Grew(before, db.log, ApplyCommits(t, history[..n]), true)
      invariant db.control.tracking == old(db.control.tracking)
    {
      ghost var mid := db.log;
      r := ApplyInscription(db, history[n], t);
      ApplyCommitsAround(t, history, n);
      GrewWithin(before, mid, db.log, ApplyCommits(t, history[..n]), InscriptionCommits(t, history[n]),
                 ApplyCommits(t, history[n + 1..]), r.Done?);
      if !r.Done? {
        return;
      }
    }
    assert history[..|history|] == history;
    r := Done;
  }

  // ---------------------------------------------------------------------------
  // Statuses

  lemma {:induction false} ObserveCommitsAround(history: seq<Inscription>, i: nat)
    requires i < |history|
    ensures var part := if history[i].batch.None? then [RecordPayloadRejection(history[i].msg)] else [];
      && ObserveCommits(history[..i + 1]) == ObserveCommits(history[..i]) + part
      && ObserveCommits(history) == ObserveCommits(history[..i]) + part + ObserveCommits(history[i + 1..])
    decreases i
  {
    if i == 0 {
      assert history[..1] == [history[0]] && history[..1][1..] == [];
    } else {
      assert history[1..][..i - 1] == history[..i][1..] && history[1..][..i] == history[..i + 1][1..];
      assert history[1..][i..] == history[i + 1..];
      ObserveCommitsAround(history[1..], i - 1);
    }
  }

  lemma {:induction false} ObserveConcat(xs: seq<Inscription>, ys: seq<Inscription>)
    ensures Observe(xs + ys) == Observe(xs) + Observe(ys)
  {
    if xs == [] {
      assert xs + ys == ys;
    } else {
      assert (xs + ys)[1..] == xs[1..] + ys;
      ObserveConcat(xs[1..], ys);
    }
  }

  lemma {:induction false} ObserveAround(history: seq<Inscription>, i: nat)
    requires i < |history|
    ensures Observe(history[..i + 1]) == Observe(history[..i]) + ObserveBatch(history[i].msg, BatchWrites(history[i]))
    ensures history[i].batch.None? ==>
      && ObserveCommits(history[..i + 1]) == ObserveCommits(history[..i]) + [RecordPayloadRejection(history[i].msg)]
      && ObserveCommits(history)
           == ObserveCommits(history[..i]) + [RecordPayloadRejection(history[i].msg)] + ObserveCommits(history[i + 1..])
    ensures history[i].batch.Some? ==> ObserveCommits(history[..i + 1]) == ObserveCommits(history[..i])
  {
    ObserveCommitsAround(history, i);
    assert history[..i + 1] == history[..i] + [history[i]];
    ObserveConcat(history[..i], [history[i]]);
    assert Observe([history[i]]) == ObserveBatch(history[i].msg, BatchWrites(history[i])) + Observe([]);
  }

  /** `observe_writes`: the decoded writes, with a record of each payload that
      cannot be decoded. */
  method ObserveWrites(db: Databases, history: seq<Inscription>) returns (r: Outcome, writes: seq<Observed>)
    requires db.Valid()
    modifies db
    ensures db.Valid() && Grew(old(db.log), db.log, ObserveCommits(history), r.Done?) && !r.InvalidLocalState?
    ensures r.Done? ==> writes == Observe(history)
    ensures db.control.tracking == old(db.control.tracking)
    ensures db.Spent(old(db.budget), old(db.log)) && (r.StorageFailure? ==> db.budget == 0)
  {
    ghost var before := db.log;
    writes := [];
    assert history[..0] == [];
    for n := 0 to |history|
      invariant db.Spent(old(db.budget), old(db.log))
      invariant db.Valid() && Grew(before, db.log, ObserveCommits(history[..n]), true)
      invariant writes == Observe(history[..n])
      invariant db.control.tracking == old(db.control.tracking)
    {
      var i := history[n];
      ObserveAround(history, n);
      if i.batch.None? {
        ghost var mid := db.log;
        r := db.RecordRejectedWrite(i.msg, None, RecordPayloadRejection(i.msg));
        GrewWithin(before, mid, db.log, ObserveCommits(history[..n]), [RecordPayloadRejection(i.msg)],
                   ObserveCommits(history[n + 1..]), r.Done?);
        if !r.Done? {
          return;
        }
      } else {
        var batch := ObserveBatch(i.msg, i.batch.value);
        writes := writes + batch;
      }
    }
    assert history[..|history|] == history;
    r := Done;
  }

  method ObserveBoth(db: Databases, orphaned: seq<Inscription>, adopted: seq<Inscription>)
    returns (r: Outcome, os: seq<Observed>, as_: seq<Observed>)
    requires db.Valid()
    modifies db
    ensures db.Valid() && !r.InvalidLocalState?
    ensures Grew(old(db.log), db.log, ObserveCommits(orphaned) + ObserveCommits(adopted), r.Done?)
    ensures r.Done? ==> os == Observe(orphaned) && as_ == Observe(adopted)
    ensures db.control.tracking == old(db.control.tracking)
    ensures db.Spent(old(db.budget), old(db.log)) && (r.StorageFailure? ==> db.budget == 0)
  {
    ghost var before := db.log;
    as_ := [];
    r, os := ObserveWrites(db, orphaned);
    ghost var mid := db.log;
    GrewFirst(before, mid, ObserveCommits(orphaned), ObserveCommits(adopted), r.Done?);
    if r.Done? {
      r, as_ := ObserveWrites(db, adopted);
      GrewLast(before, mid, db.log, ObserveCommits(orphaned), ObserveCommits(adopted), r.Done?);
    }
  }

  /** An orphaned write contradicts a publication of ours that the event does not
      finalize. */
  ghost predicate Contradicted(k: Tracking, ev: Event)
  {
    exists o :: o in Observe(ev.orphaned) && o.msg !in Messages(ev.finalized) && Contradicts(k, o)
  }

  /** An event is refused as inconsistent only if it is contradictory, and never succeeds
      then. */
  ghost predicate Refuses(r: Outcome, k: Tracking, ev: Event)
  {
    (r.InvalidLocalState? ==> Contradicted(k, ev)) && (r.Done? ==> !Contradicted(k, ev))
  }

  method UpdateStatusesFor(db: Databases, ev: Event, adopted: seq<Inscription>) returns (r: Outcome)
    requires db.Valid()
    modifies db
    ensures db.Valid() && Grew(old(db.log), db.log, StatusCommits(ev, adopted), r.Done?)
    ensures db.Spent(old(db.budget), old(db.log)) && (r.StorageFailure? ==> db.budget == 0)
    ensures Refuses(r, old(db.control.tracking), ev)
  {
    ghost var before := db.log;
    ghost var a := ObserveCommits(ev.orphaned) + ObserveCommits(adopted);
    ghost var b := [UpdateStatuses(Messages(ev.finalized), Observe(ev.orphaned), Observe(adopted))];
    var orphanedWrites, adoptedWrites;
    r, orphanedWrites, adoptedWrites := ObserveBoth(db, ev.orphaned, adopted);
    ghost var mid := db.log;
    GrewFirst(before, mid, a, b, r.Done?);
    if r.Done? {
      UpdateFailsExactlyWhenContradicted(db.control.tracking, Messages(ev.finalized), orphanedWrites, adoptedWrites);
      r := db.UpdateWriteStatuses(Messages(ev.finalized), orphanedWrites, adoptedWrites);
      GrewLast(before, mid, db.log, a, b, r.Done?);
    }
  }

  // ---------------------------------------------------------------------------
  // Direct application

  /** Finalized writes to LIB and LIVE, then adopted writes to LIVE. */
  method ApplyBoth(db: Databases, ev: Event) returns (r: Outcome)
    requires db.Valid()
    modifies db
    ensures db.Valid() && !r.InvalidLocalState?
    ensures Grew(old(db.log), db.log, ApplyCommits(LibAndLive, ev.finalized) + ApplyCommits(LiveOnly, ev.adopted),
                 r.Done?)
    ensures db.Spent(old(db.budget), old(db.log)) && (r.StorageFailure? ==> db.budget == 0)
    ensures db.control.tracking == old(db.control.tracking)
  {
    ghost var before := db.log;
    r := ApplyInscriptions(db, ev.finalized, LibAndLive);
    ghost var mid := db.log;
    GrewFirst(before, mid, ApplyCommits(LibAndLive, ev.finalized), ApplyCommits(LiveOnly, ev.adopted), r.Done?);
    if r.Done? {
      r := ApplyInscriptions(db, ev.adopted, LiveOnly);
      GrewLast(before, mid, db.log, ApplyCommits(LibAndLive, ev.finalized), ApplyCommits(LiveOnly, ev.adopted),
               r.Done?);
    }
  }

  /** Updates the statuses for what the event adopts and saves its checkpoint. */
  method SaveWithStatuses(db: Databases, ev: Event) returns (r: Outcome)
    requires db.Valid()
    modifies db
    ensures db.Valid()
    ensures Grew(old(db.log), db.log, StatusCommits(ev, ev.adopted) + [SaveCheckpoint(ev.view)], r.Done?)
    ensures db.Spent(old(db.budget), old(db.log)) && (r.StorageFailure? ==> db.budget == 0)
    ensures Refuses(r, old(db.control.tracking), ev)
  {
    ghost var before := db.log;
    ghost var a, b := StatusCommits(ev, ev.adopted), [SaveCheckpoint(ev.view)];
    r := UpdateStatusesFor(db, ev, ev.adopted);
    ghost var mid := db.log;
    GrewFirst(before, mid, a, b, r.Done?);
    if r.Done? {
      r := db.PersistCheckpoint(ev.view);
      GrewLast(before, mid, db.log, a, b, r.Done?);
    }
  }

  /** `SqlChanges::apply` and the checkpoint that follows it. */
  method ApplyDirectly(db: Databases, ev: Event) returns (r: Outcome)
    requires db.Valid()
    modifies db
    ensures db.Valid() && Grew(old(db.log), db.log, DirectCommits(ev), r.Done?)
    ensures db.Spent(old(db.budget), old(db.log)) && (r.StorageFailure? ==> db.budget == 0)
    ensures Refuses(r, old(db.control.tracking), ev)
  {
    ghost var before := db.log;
    ghost var a := ApplyCommits(LibAndLive, ev.finalized) + ApplyCommits(LiveOnly, ev.adopted);
    ghost var b := StatusCommits(ev, ev.adopted) + [SaveCheckpoint(ev.view)];
    r := ApplyBoth(db, ev);
    ghost var mid := db.log;
    GrewFirst(before, mid, a, b, r.Done?);
    if r.Done? {
      r := SaveWithStatuses(db, ev);
      GrewLast(before, mid, db.log, a, b, r.Done?);
    }
    assert a + b == DirectCommits(ev);
  }

  // ---------------------------------------------------------------------------
  // Rebuild

  lemma {:induction false} DisplaceCommitsAround(queue: seq<Queued>, i: nat)
    requires i < |queue|
    ensures DisplaceCommits(queue[..i + 1]) == DisplaceCommits(queue[..i]) + [DisplaceQueued(queue[i])]
    ensures DisplaceCommits(queue)
         == DisplaceCommits(queue[..i]) + [DisplaceQueued(queue[i])] + DisplaceCommits(queue[i + 1..])
    decreases i
  {
    if i == 0 {
      assert queue[..1] == [queue[0]] && queue[..1][1..] == [];
    } else {
      assert queue[1..][..i - 1] == queue[..i][1..] && queue[1..][..i] == queue[..i + 1][1..];
      assert queue[1..][i..] == queue[i + 1..];
      DisplaceCommitsAround(queue[1..], i - 1);
    }
  }

  method DisplaceQueue(db: Databases, displaced: seq<Queued>) returns (r: Outcome)
    requires db.Valid()
    modifies db
    ensures db.Valid() && Grew(old(db.log), db.log, DisplaceCommits(displaced), r.Done?) && !r.InvalidLocalState?
    ensures db.Spent(old(db.budget), old(db.log)) && (r.StorageFailure? ==> db.budget == 0)
    ensures db.control.tracking.locals == old(db.control.tracking).locals
  {
    ghost var before := db.log;
    assert displaced[..0] == [];
    for n := 0 to |displaced|
      invariant db.Spent(old(db.budget), old(db.log))
      invariant db.Valid() && Grew(before, db.log, DisplaceCommits(displaced[..n]), true)
      invariant db.control.tracking.locals == old(db.control.tracking).locals
    {
      ghost var mid := db.log;
      r := db.RecordPendingWriteDisplacement(displaced[n]);
      DisplaceCommitsAround(displaced, n);
      GrewWithin(before, mid, db.log, DisplaceCommits(displaced[..n]), [DisplaceQueued(displaced[n])],
                 DisplaceCommits(displaced[n + 1..]), r.Done?);
      if !r.Done? {
        return;
      }
    }
    assert displaced[..|displaced|] == displaced;
    r := Done;
  }

  /** Sets the flag before anything else changes, then displaces the queue. */
  method BeginRebuild(db: Databases, displaced: seq<Queued>) returns (r: Outcome)
    requires db.Valid()
    modifies db
    ensures db.Valid() && !r.InvalidLocalState?
    ensures Grew(old(db.log), db.log, [Commit.RequireRebuild] + DisplaceCommits(displaced), r.Done?)
    ensures db.Spent(old(db.budget), old(db.log)) && (r.StorageFailure? ==> db.budget == 0)
    ensures db.control.tracking.locals == old(db.control.tracking).locals
  {
    ghost var before := db.log;
    r := db.RequireRebuild();
    ghost var mid := db.log;
    GrewFirst(before, mid, [Commit.RequireRebuild], DisplaceCommits(displaced), r.Done?);
    if r.Done? {
      r := DisplaceQueue(db, displaced);
      GrewLast(before, mid, db.log, [Commit.RequireRebuild], DisplaceCommits(displaced), r.Done?);
    }
  }

  /** The flag first, then the displacements, then LIB. */
  method PrepareRebuild(db: Databases, ev: Event, displaced: seq<Queued>) returns (r: Outcome)
    requires db.Valid()
    modifies db
    ensures db.Valid() && Grew(old(db.log), db.log, PrepareCommits(ev, displaced), r.Done?) && !r.InvalidLocalState?
    ensures db.Spent(old(db.budget), old(db.log)) && (r.StorageFailure? ==> db.budget == 0)
    ensures db.control.tracking.locals == old(db.control.tracking).locals
  {
    ghost var before := db.log;
    ghost var a, b := [Commit.RequireRebuild] + DisplaceCommits(displaced), ApplyCommits(LibOnly, ev.finalized);
    r := BeginRebuild(db, displaced);
    ghost var mid := db.log;
    GrewFirst(before, mid, a, b, r.Done?);
    if r.Done? {
      r := ApplyInscriptions(db, ev.finalized, LibOnly);
      GrewLast(before, mid, db.log, a, b, r.Done?);
    }
  }

  lemma {:induction false} ReplayBatchCommitsAround(msg: MsgId, before: seq<Write>, ws: seq<Write>, i: nat)
    requires i < |ws|
    ensures var part := [RecordRebuildRejection(msg, before + ws[..i + 1])];
      && ReplayBatchCommits(msg, before, ws[..i + 1]) == ReplayBatchCommits(msg, before, ws[..i]) + part
      && ReplayBatchCommits(msg, before, ws)
           == ReplayBatchCommits(msg, before, ws[..i]) + part
              + ReplayBatchCommits(msg, before + ws[..i + 1], ws[i + 1..])
    decreases i
  {
    if i == 0 {
      assert ws[..1] == [ws[0]] && ws[..1][1..] == [];
    } else {
      assert ws[1..][..i - 1] == ws[..i][1..] && ws[1..][..i] == ws[..i + 1][1..];
      assert ws[1..][i..] == ws[i + 1..];
      assert before + [ws[0]] + ws[1..][..i] == before + ws[..i + 1];
      ReplayBatchCommitsAround(msg, before + [ws[0]], ws[1..], i - 1);
    }
  }

  /** Replays one batch into the image, recording each rejection. */
  method ReplayBatch(db: Databases, msg: MsgId, ws: seq<Write>, image: Replica, ghost before: seq<Write>)
    returns (r: Outcome, image': Replica)
    requires db.Valid() && image == Replay(db.engine, db.lib, before)
    modifies db
    ensures db.Valid() && Grew(old(db.log), db.log, ReplayBatchCommits(msg, before, ws), r.Done?)
    ensures !r.InvalidLocalState?
    ensures db.lib == old(db.lib)
    ensures r.Done? ==> image' == Replay(db.engine, db.lib, before + ws)
    ensures db.Spent(old(db.budget), old(db.log)) && (r.StorageFailure? ==> db.budget == 0)
  {
    ghost var log0 := db.log;
    image' := image;
    assert ws[..0] == [] && before + [] == before;
    for n := 0 to |ws|
      invariant db.Spent(old(db.budget), old(db.log))
      invariant db.Valid() && Grew(log0, db.log, ReplayBatchCommits(msg, before, ws[..n]), true)
      invariant db.lib == old(db.lib) && image' == Replay(db.engine, db.lib, before + ws[..n])
    {
      ghost var mid := db.log;
      ghost var replayed := before + ws[..n + 1];
      assert replayed == (before + ws[..n]) + [ws[n]];
      ReplayOne(db.engine, db.lib, before + ws[..n], ws[n]);
      image' := SqlHistory.ApplyWrite(db.engine, image', ws[n]);
      r := RecordIfRejected(db, msg, ws[n], image', replayed);
      ReplayBatchCommitsAround(msg, before, ws, n);
      GrewWithin(log0, mid, db.log, ReplayBatchCommits(msg, before, ws[..n]), [RecordRebuildRejection(msg, replayed)],
                 ReplayBatchCommits(msg, replayed, ws[n + 1..]), r.Done?);
      if !r.Done? {
        return;
      }
    }
    assert ws[..|ws|] == ws;
    r := Done;
  }

  method RecordIfRejected(db: Databases, msg: MsgId, w: Write, image: Replica, ghost replayed: seq<Write>)
    returns (r: Outcome)
    requires db.Valid() && replayed != [] && replayed[|replayed| - 1] == w
    requires image == Replay(db.engine, db.lib, replayed)
    modifies db
    ensures db.Valid() && Grew(old(db.log), db.log, [RecordRebuildRejection(msg, replayed)], r.Done?)
    ensures !r.InvalidLocalState?
    ensures db.lib == old(db.lib)
    ensures db.Spent(old(db.budget), old(db.log)) && (r.StorageFailure? ==> db.budget == 0)
  {
    if IsApplied(image, w) {
      db.NothingToCommit(RecordRebuildRejection(msg, replayed));
      r := Done;
    } else {
      r := db.RecordRejectedWrite(msg, Some(w.tx), RecordRebuildRejection(msg, replayed));
    }
  }

  lemma {:induction false} ReplayCommitsConcat(before: seq<Write>, xs: seq<Inscription>, ys: seq<Inscription>)
    ensures ReplayCommits(before, xs + ys) == ReplayCommits(before, xs) + ReplayCommits(before + Writes(xs), ys)
    decreases |xs|
  {
    if xs == [] {
      assert xs + ys == ys && before + [] == before;
    } else {
      assert (xs + ys)[1..] == xs[1..] + ys;
      ReplayCommitsConcat(before + BatchWrites(xs[0]), xs[1..], ys);
      assert before + BatchWrites(xs[0]) + Writes(xs[1..]) == before + Writes(xs);
    }
  }

  lemma {:induction false} ReplayCommitsOne(before: seq<Write>, i: Inscription)
    ensures ReplayCommits(before, [i]) == ReplayPart(before, i)
  {
    assert [i][1..] == [];
  }

  lemma {:induction false} ReplayCommitsAround(history: seq<Inscription>, i: nat)
    requires i < |history|
    ensures var done := Writes(history[..i]); var part := ReplayPart(done, history[i]);
      && ReplayCommits([], history[..i + 1]) == ReplayCommits([], history[..i]) + part
      && ReplayCommits([], history) == ReplayCommits([], history[..i]) + part
           + ReplayCommits(Writes(history[..i + 1]), history[i + 1..])
  {
    var done := Writes(history[..i]);
    assert history[..i + 1] == history[..i] + [history[i]] && history == history[..i + 1] + history[i + 1..];
    ReplayCommitsConcat([], history[..i], [history[i]]);
    ReplayCommitsConcat([], history[..i + 1], history[i + 1..]);
    assert [] + done == done && [] + Writes(history[..i + 1]) == Writes(history[..i + 1]);
    ReplayCommitsOne(done, history[i]);
  }

  /** Replays one inscription of the surviving history into the image. */
  method ReplayInscription(db: Databases, i: Inscription, image: Replica, ghost done: seq<Write>)
    returns (r: Outcome, image': Replica)
    requires db.Valid() && image == Replay(db.engine, db.lib, done)
    modifies db
    ensures db.Valid() && Grew(old(db.log), db.log, ReplayPart(done, i), r.Done?) && !r.InvalidLocalState?
    ensures r.Done? ==> image' == Replay(db.engine, db.lib, done + BatchWrites(i))
    ensures db.Spent(old(db.budget), old(db.log)) && (r.StorageFailure? ==> db.budget == 0)
  {
    image' := image;
    if i.batch.None? {
      r := db.RecordRejectedWrite(i.msg, None, RecordPayloadRejection(i.msg));
      assert done + [] == done;
    } else {
      r, image' := ReplayBatch(db, i.msg, i.batch.value, image, done);
    }
  }

  lemma {:induction false} WritesAround(history: seq<Inscription>, i: nat)
    requires i < |history|
    ensures Writes(history[..i + 1]) == Writes(history[..i]) + BatchWrites(history[i])
  {
    assert history[..i + 1] == history[..i] + [history[i]];
    WritesConcat(history[..i], [history[i]]);
    WritesOne(history[i]);
  }

  /** Replays the surviving history into a copy of LIB; only rejections are stored. */
  method ReplayHistory(db: Databases, history: seq<Inscription>) returns (r: Outcome, image: Replica)
    requires db.Valid()
    modifies db
    ensures db.Valid() && !r.InvalidLocalState?
    ensures Grew(old(db.log), db.log, ReplayCommits([], history), r.Done?)
    ensures r.Done? ==> image == Replay(db.engine, db.lib, Writes(history))
    ensures db.Spent(old(db.budget), old(db.log)) && (r.StorageFailure? ==> db.budget == 0)
  {
    ghost var before := db.log;
    r, image := Done, db.lib;
    assert history[..0] == [];
    for n := 0 to |history|
      invariant db.Spent(old(db.budget), old(db.log))
      invariant db.Valid() && Grew(before, db.log, ReplayCommits([], history[..n]), true) && r.Done?
      invariant image == Replay(db.engine, db.lib, Writes(history[..n]))
    {
      ghost var mid, done := db.log, Writes(history[..n]);
      WritesAround(history, n);
      ReplayCommitsAround(history, n);
      r, image := ReplayInscription(db, history[n], image, done);
      GrewWithin(before, mid, db.log, ReplayCommits([], history[..n]), ReplayPart(done, history[n]),
                 ReplayCommits(Writes(history[..n + 1]), history[n + 1..]), r.Done?);
      if !r.Done? {
        return;
      }
    }
    assert history[..|history|] == history;
  }

  /** Copies LIB, replays the surviving history into the copy, and installs it. */
  method RebuildLive(db: Databases, history: seq<Inscription>) returns (r: Outcome)
    requires db.Valid()
    modifies db
    ensures db.Valid() && !r.InvalidLocalState?
    ensures Grew(old(db.log), db.log, ReplayCommits([], history) + [InstallRebuild(Writes(history))], r.Done?)
    ensures db.Spent(old(db.budget), old(db.log)) && (r.StorageFailure? ==> db.budget == 0)
  {
    ghost var before, replay := db.log, ReplayCommits([], history);
    ghost var install := [InstallRebuild(Writes(history))];
    var image;
    r, image := ReplayHistory(db, history);
    if !r.Done? {
      GrewFirst(before, db.log, replay, install, false);
      return;
    }
    ghost var mid := db.log;
    r := db.FinishLiveRebuild(image, Writes(history));
    GrewLast(before, mid, db.log, replay, install, r.Done?);
  }

  /** What a rebuild commits once the statuses are updated. */
  ghost function InstallCommits(ev: Event, h: seq<Inscription>): seq<Commit>
  {
    ReplayCommits([], h) + [InstallRebuild(Writes(h))] + [SaveRebuiltCheckpoint(ev.view)]
  }

  /** Replaces LIVE and clears the flag with the checkpoint. */
  method InstallHistory(db: Databases, ev: Event, history: seq<Inscription>) returns (r: Outcome)
    requires db.Valid()
    modifies db
    ensures db.Valid() && !r.InvalidLocalState?
    ensures Grew(old(db.log), db.log, InstallCommits(ev, history), r.Done?)
    ensures db.Spent(old(db.budget), old(db.log)) && (r.StorageFailure? ==> db.budget == 0)
  {
    ghost var before := db.log;
    ghost var a := ReplayCommits([], history) + [InstallRebuild(Writes(history))];
    r := RebuildLive(db, history);
    ghost var mid := db.log;
    GrewFirst(before, mid, a, [SaveRebuiltCheckpoint(ev.view)], r.Done?);
    if r.Done? {
      r := db.PersistRebuiltCheckpoint(ev.view);
      GrewLast(before, mid, db.log, a, [SaveRebuiltCheckpoint(ev.view)], r.Done?);
    }
  }

  /** `finish_rebuild`, or the progress saved when the history is unavailable. */
  method FinishRebuild(db: Databases, ev: Event) returns (r: Outcome)
    requires db.Valid()
    modifies db
    ensures db.Valid() && Grew(old(db.log), db.log, FinishCommits(ev), r.Done?)
    ensures db.Spent(old(db.budget), old(db.log)) && (r.StorageFailure? ==> db.budget == 0)
    ensures Refuses(r, old(db.control.tracking), ev)
  {
    ghost var before := db.log;
    var history := HistoryFor(ev);
    if history.None? {
      r := SaveWithStatuses(db, ev);
      return;
    }
    ghost var a, b := StatusCommits(ev, history.value), InstallCommits(ev, history.value);
    FinishPieces(ev, history.value);
    r := UpdateStatusesFor(db, ev, history.value);
    ghost var mid := db.log;
    GrewFirst(before, mid, a, b, r.Done?);
    if r.Done? {
      r := InstallHistory(db, ev, history.value);
      GrewLast(before, mid, db.log, a, b, r.Done?);
    }
  }

  lemma {:induction false} FinishPieces(ev: Event, h: seq<Inscription>)
    requires HistoryFor(ev) == Some(h)
    ensures FinishCommits(ev) == StatusCommits(ev, h) + InstallCommits(ev, h)
  {
    var a, b := StatusCommits(ev, h), ReplayCommits([], h);
    assert a + b + [InstallRebuild(Writes(h)), SaveRebuiltCheckpoint(ev.view)] == a + InstallCommits(ev, h);
  }

  // ---------------------------------------------------------------------------
  // The whole event

  /** Reads the databases only. */
  method PlanFor(db: Databases, ev: Event) returns (p: Plan)
    ensures p == ApplicationPlan(db.Durable(), ev)
  {
    var pending := db.queue;
    if db.control.rebuild {
      return Rebuild(pending);
    }
    if pending != [] {
      var changes := ev.orphaned != [];
      var writes := Observe(ev.adopted + ev.finalized);
      var n := 0;
      while n < |writes| && !changes
        invariant 0 <= n <= |writes|
        invariant !changes ==> ev.orphaned == [] && forall j :: 0 <= j < n ==> LiveProcessed(db.Durable(), writes[j])
        invariant changes ==> ChangesHistoryBeforePending(db.Durable(), ev)
        decreases |writes| - n, !changes
      {
        if !db.LiveProcessedWrite(writes[n]) {
          changes := true;
        } else {
          n := n + 1;
        }
      }
      if changes {
        return Rebuild(pending);
      }
    }
    if ev.orphaned != [] {
      return Rebuild([]);
    }
    p := ApplyChanges;
  }

  /** One attempt at an event: the databases end where some prefix of its
      transactions leaves them, and the whole list is committed exactly when the
      attempt succeeds. */
  method ProcessBlocks(db: Databases, ev: Event) returns (r: Outcome)
    requires db.Valid()
    modifies db
    ensures db.Valid()
    ensures Grew(old(db.log), db.log, EventCommits(old(db.Durable()), ev), r.Done?)
    ensures db.Spent(old(db.budget), old(db.log)) && (r.StorageFailure? ==> db.budget == 0)
    ensures Refuses(r, old(db.control.tracking), ev)
  {
    var plan := PlanFor(db, ev);
    if plan.ApplyChanges? {
      r := ApplyDirectly(db, ev);
      return;
    }
    ghost var before := db.log;
    ghost var a, b := PrepareCommits(ev, plan.displaced), FinishCommits(ev);
    r := PrepareRebuild(db, ev, plan.displaced);
    ghost var mid := db.log;
    GrewWithin(before, before, mid, [], a, b, r.Done?);
    assert [] + a == a;
    if r.Done? {
      r := FinishRebuild(db, ev);
      GrewWithin(before, mid, db.log, a, b, [], r.Done?);
      assert a + b + [] == a + b;
    }
  }
}
