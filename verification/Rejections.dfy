/** What the record of rejections holds after an event: exactly the writes that the
    databases did not accept, and the messages that do not decode. */
module Rejections {
  import opened Wrappers
  import opened SqlHistory
  import opened WriteStatuses
  import opened Commits
  import opened EventEffects
  import opened Resumption
  import opened QueueLemmas
  import opened EventProofs

  // ---------------------------------------------------------------------------
  // Rejections

  /** The databases that the write is for have it. */
  predicate AcceptedBy(t: Target, p: Pair, w: Write)
  {
    match t
    case LibAndLive => IsApplied(p.lib, w) && IsApplied(p.live, w)
    case LiveOnly => IsApplied(p.live, w)
    case LibOnly => IsApplied(p.lib, w)
  }

  function Rejection(msg: MsgId, w: Write): (MsgId, Option<TxId>)
  {
    (msg, Some(w.tx))
  }

  lemma {:induction false} RunTwo(e: Engine, st: Store, a: Commit, b: Commit)
    ensures Run(e, st, [a, b]) == Do(e, Do(e, st, a), b)
  {
    assert [a, b][1..] == [b] && [b][1..] == [];
    assert Run(e, Do(e, st, a), [b]) == Run(e, Do(e, Do(e, st, a), b), []);
  }

  lemma {:induction false} RunThree(e: Engine, st: Store, a: Commit, b: Commit, c: Commit)
    ensures Run(e, st, [a, b, c]) == Do(e, Do(e, Do(e, st, a), b), c)
  {
    assert [a, b, c][1..] == [b, c];
    RunTwo(e, Do(e, st, a), b, c);
  }

  lemma {:induction false} WriteRecordsRejection(e: Engine, st: Store, t: Target, msg: MsgId, w: Write)
    ensures var st' := Run(e, st, WriteCommits(t, msg, w));
      && st'.control.rejected
           == (if AcceptedBy(t, PairOf(st'), w) then st.control.rejected else st.control.rejected + {Rejection(msg, w)})
      && OtherMarksStay(st, st', w.tx)
  {
    match t
    case LibAndLive => RunThree(e, st, FinalizeLib(w), FinalizeLive(w), RecordFinalizeRejection(msg, w));
    case LiveOnly => RunTwo(e, st, AdoptLive(w), RecordAdoptRejection(msg, w));
    case LibOnly => RunTwo(e, st, RebuildLib(w), RecordLibRejection(msg, w));
  }

  /** No marker of another id changed. */
  ghost predicate OtherMarksStay(st: Store, st': Store, tx: TxId)
  {
    forall x :: x != tx ==> SameMark(st, st', x)
  }

  ghost predicate SameMark(st: Store, st': Store, x: TxId)
  {
    && (x in st'.lib.applied <==> x in st.lib.applied)
    && (x in st.lib.applied ==> st'.lib.applied[x] == st.lib.applied[x])
    && (x in st'.live.applied <==> x in st.live.applied)
    && (x in st.live.applied ==> st'.live.applied[x] == st.live.applied[x])
  }

  /** After the whole batch, a rejection of one of its writes is on record exactly when it
      was before or the target did not accept the write; nothing else is recorded, and
      no other marker changes. */
  ghost predicate RejectionsRecorded(st: Store, st': Store, t: Target, msg: MsgId, ws: seq<Write>)
  {
    && (forall w :: w in ws ==>
          (Rejection(msg, w) in st'.control.rejected <==>
             Rejection(msg, w) in st.control.rejected || !AcceptedBy(t, PairOf(st'), w)))
    && (forall r :: r in st'.control.rejected && r !in st.control.rejected ==>
         exists w :: w in ws && r == Rejection(msg, w))
    && (forall x :: x !in Ids(ws) ==> SameMark(st, st', x))
  }

  lemma {:induction false} BatchRecordsRejections(e: Engine, st: Store, t: Target, msg: MsgId, ws: seq<Write>)
    requires DistinctIds(ws)
    ensures RejectionsRecorded(st, Run(e, st, BatchCommits(t, msg, ws)), t, msg, ws)
    ensures st.control.rejected <= Run(e, st, BatchCommits(t, msg, ws)).control.rejected
    decreases |ws|
  {
    if ws == [] {
      assert Run(e, st, BatchCommits(t, msg, ws)) == st;
    } else {
      var w, rest := ws[0], ws[1..];
      var st1 := Run(e, st, WriteCommits(t, msg, w));
      WriteRecordsRejection(e, st, t, msg, w);
      RunConcat(e, st, WriteCommits(t, msg, w), BatchCommits(t, msg, rest));
      BatchRecordsRejections(e, st1, t, msg, rest);
      IdsOfOthers(rest, w.tx);
      RejectionsAddUp(st, st1, Run(e, st, BatchCommits(t, msg, ws)), t, msg, ws);
    }
  }

  lemma {:induction false} RejectionsAddUp(st: Store, st1: Store, st': Store, t: Target, msg: MsgId, ws: seq<Write>)
    requires DistinctIds(ws) && ws != [] && ws[0].tx !in Ids(ws[1..])
    requires OtherMarksStay(st, st1, ws[0].tx) && RejectionsRecorded(st1, st', t, msg, ws[1..])
    requires st1.control.rejected <= st'.control.rejected
    requires st1.control.rejected ==
      (if AcceptedBy(t, PairOf(st1), ws[0]) then st.control.rejected else st.control.rejected + {Rejection(msg, ws[0])})
    ensures RejectionsRecorded(st, st', t, msg, ws)
  {
    assert ws == [ws[0]] + ws[1..];
    assert SameMark(st1, st', ws[0].tx);
    forall w | w in ws[1..]
      ensures Rejection(msg, w) in st1.control.rejected <==> Rejection(msg, w) in st.control.rejected
    {
      var i :| 0 <= i < |ws[1..]| && ws[1..][i] == w;
      assert ws[0].tx != ws[i + 1].tx;
    }
    forall x | x !in Ids(ws) ensures SameMark(st, st', x) {
      assert SameMark(st, st1, x) && SameMark(st1, st', x);
    }
  }

  /** Applying one inscription records exactly its rejections: the message itself when it
      does not decode, otherwise the writes that the target did not accept. */
  lemma {:induction false} InscriptionRecordsRejections(e: Engine, st: Store, t: Target, i: Inscription)
    requires DistinctIds(BatchWrites(i))
    ensures var st' := Run(e, st, InscriptionCommits(t, i));
      match i.batch
      case None => st' == st.(control := st.control.(rejected := st.control.rejected + {(i.msg, None)}))
      case Some(ws) => st.control.rejected <= st'.control.rejected && RejectionsRecorded(st, st', t, i.msg, ws)
  {
    match i.batch
    case None =>
      var c := RecordPayloadRejection(i.msg);
      assert Run(e, st, [c]) == Run(e, Do(e, st, c), []);
    case Some(ws) => BatchRecordsRejections(e, st, t, i.msg, ws);
  }

  // ---------------------------------------------------------------------------
  // Rejections of a rebuild

  /** Whether the image applied the write, `ws` being replayed above LIB. */
  predicate OnImage(e: Engine, lib: Replica, ws: seq<Write>, w: Write)
  {
    IsApplied(Replay(e, lib, ws), w)
  }

  lemma {:induction false} LaterWritesDoNotMatter(e: Engine, lib: Replica, xs: seq<Write>, ys: seq<Write>, w: Write)
    requires forall y :: y in ys ==> y.tx != w.tx
    ensures OnImage(e, lib, xs + ys, w) <==> OnImage(e, lib, xs, w)
  {
    ReplayConcat(e, lib, xs, ys);
    if OnImage(e, lib, xs, w) {
      MarkersPersist(e, Replay(e, lib, xs), ys, w.tx);
    } else if OnImage(e, lib, xs + ys, w) {
      NewMarkersAreReplayed(e, Replay(e, lib, xs), ys, w);
    }
  }

  /** One of the writes has this id and is not on the image. */
  ghost predicate RejectedAmong(e: Engine, lib: Replica, replayed: seq<Write>, ws: seq<Write>, tx: TxId)
  {
    exists w :: w in ws && w.tx == tx && !OnImage(e, lib, replayed, w)
  }

  lemma {:induction false} OthersDiffer(before: seq<Write>, w: Write, rest: seq<Write>)
    requires DistinctIds(before + [w] + rest)
    ensures forall y :: y in rest ==> y.tx != w.tx
  {
    var all := before + [w] + rest;
    forall y | y in rest ensures y.tx != w.tx {
      var i :| 0 <= i < |rest| && rest[i] == y;
      assert all[|before|] == w && all[|before| + 1 + i] == y;
    }
  }

  lemma {:induction false} BatchReplayRecords(e: Engine, st: Store, msg: MsgId, before: seq<Write>, ws: seq<Write>,
                                              later: seq<Write>, m: MsgId, tx: TxId)
    requires DistinctIds(before + ws + later)
    ensures var st' := Run(e, st, ReplayBatchCommits(msg, before, ws));
      && st'.lib == st.lib
      && ((m, Some(tx)) in st'.control.rejected <==>
            (m, Some(tx)) in st.control.rejected
            || (m == msg && RejectedAmong(e, st.lib, before + ws + later, ws, tx)))
    decreases |ws|
  {
    if ws == [] {
      assert Run(e, st, ReplayBatchCommits(msg, before, ws)) == st;
    } else {
      var w, rest := ws[0], ws[1..];
      var st1 := Do(e, st, RecordRebuildRejection(msg, before + [w]));
      assert before + ws + later == before + [w] + (rest + later) == before + [w] + rest + later;
      OthersDiffer(before, w, rest + later);
      LaterWritesDoNotMatter(e, st.lib, before + [w], rest + later, w);
      BatchReplayRecords(e, st1, msg, before + [w], rest, later, m, tx);
      assert ws == [w] + rest;
    }
  }

  /** A rebuild records exactly the rejections of its replay: of each message, the writes
      that the new LIVE does not have. */
  ghost predicate ReplayRejected(e: Engine, lib: Replica, replayed: seq<Write>, history: seq<Inscription>, m: MsgId,
                                 tx: TxId)
  {
    exists i :: i in history && i.msg == m && RejectedAmong(e, lib, replayed, BatchWrites(i), tx)
  }

  /** One inscription of the replay, `later` being replayed after it. */
  lemma {:induction false} PartRecords(e: Engine, st: Store, before: seq<Write>, i: Inscription, later: seq<Write>,
                                       m: MsgId, tx: TxId)
    requires DistinctIds(before + BatchWrites(i) + later)
    ensures var st' := Run(e, st, ReplayPart(before, i));
      && st'.lib == st.lib
      && ((m, Some(tx)) in st'.control.rejected <==>
            || (m, Some(tx)) in st.control.rejected
            || (m == i.msg && RejectedAmong(e, st.lib, before + BatchWrites(i) + later, BatchWrites(i), tx)))
  {
    if i.batch.Some? {
      BatchReplayRecords(e, st, i.msg, before, BatchWrites(i), later, m, tx);
    } else {
      assert Run(e, st, [RecordPayloadRejection(i.msg)]) == Run(e, Do(e, st, RecordPayloadRejection(i.msg)), []);
    }
  }

  lemma {:induction false} ReplayRejectedSplits(e: Engine, lib: Replica, ws: seq<Write>, i: Inscription,
                                                rest: seq<Inscription>, m: MsgId, tx: TxId)
    ensures ReplayRejected(e, lib, ws, [i] + rest, m, tx)
       <==> (i.msg == m && RejectedAmong(e, lib, ws, BatchWrites(i), tx)) || ReplayRejected(e, lib, ws, rest, m, tx)
  {
  }

  lemma {:induction false} ReplayFirst(e: Engine, st: Store, before: seq<Write>, i: Inscription,
                                       rest: seq<Inscription>)
    ensures Run(e, st, ReplayCommits(before, [i] + rest))
         == Run(e, Run(e, st, ReplayPart(before, i)), ReplayCommits(before + BatchWrites(i), rest))
  {
    assert ([i] + rest)[1..] == rest;
    RunConcat(e, st, ReplayPart(before, i), ReplayCommits(before + BatchWrites(i), rest));
  }

  lemma {:induction false} WritesFirst(before: seq<Write>, i: Inscription, rest: seq<Inscription>)
    ensures before + Writes([i] + rest) == before + BatchWrites(i) + Writes(rest)
  {
    assert ([i] + rest)[1..] == rest;
  }

  lemma {:induction false} ReplayRecords(e: Engine, st: Store, before: seq<Write>, history: seq<Inscription>, m: MsgId,
                                         tx: TxId)
    requires DistinctIds(before + Writes(history))
    ensures var st' := Run(e, st, ReplayCommits(before, history));
      && st'.lib == st.lib
      && ((m, Some(tx)) in st'.control.rejected <==>
            (m, Some(tx)) in st.control.rejected
            || ReplayRejected(e, st.lib, before + Writes(history), history, m, tx))
    decreases |history|
  {
    if history == [] {
      assert Run(e, st, ReplayCommits(before, history)) == st;
    } else {
      var i, rest := history[0], history[1..];
      assert history == [i] + rest;
      WritesFirst(before, i, rest);
      ReplayFirst(e, st, before, i, rest);
      PartRecords(e, st, before, i, Writes(rest), m, tx);
      ReplayRecords(e, Run(e, st, ReplayPart(before, i)), before + BatchWrites(i), rest, m, tx);
      ReplayRejectedSplits(e, st.lib, before + Writes(history), i, rest, m, tx);
    }
  }

  // ---------------------------------------------------------------------------
  // One write, by its target

  /** A finalized write whose id either database knows with another content changes
      neither. Otherwise LIB executes it unless it has it, and LIVE does the same only if
      LIB has it then. */
  lemma {:induction false} FinalizedWriteOutcome(e: Engine, st: Store, msg: MsgId, w: Write)
    ensures var st' := Run(e, st, WriteCommits(LibAndLive, msg, w));
      if Mismatched(st.lib, w) || Mismatched(st.live, w) then st'.lib == st.lib && st'.live == st.live
      else
        && st'.lib == ApplyWrite(e, st.lib, w)
        && st'.live == if w.tx in st'.lib.applied then ApplyWrite(e, st.live, w) else st.live
  {
    RunThree(e, st, FinalizeLib(w), FinalizeLive(w), RecordFinalizeRejection(msg, w));
  }

  /** An adopted write is for LIVE only, one finalized during a rebuild for LIB only. */
  lemma {:induction false} OtherWriteOutcome(e: Engine, st: Store, msg: MsgId, w: Write)
    ensures var st' := Run(e, st, WriteCommits(LiveOnly, msg, w));
      st'.lib == st.lib && st'.live == ApplyWrite(e, st.live, w)
    ensures var st' := Run(e, st, WriteCommits(LibOnly, msg, w));
      st'.live == st.live && st'.lib == ApplyWrite(e, st.lib, w)
  {
    RunTwo(e, st, AdoptLive(w), RecordAdoptRejection(msg, w));
    RunTwo(e, st, RebuildLib(w), RecordLibRejection(msg, w));
  }

  // ---------------------------------------------------------------------------
  // Histories

  ghost predicate RefusedAmong(t: Target, p: Pair, ws: seq<Write>, tx: TxId)
  {
    exists w :: w in ws && w.tx == tx && !AcceptedBy(t, p, w)
  }

  /** A write with this id, carried by this message, is not on the databases it is for. */
  ghost predicate Refused(t: Target, p: Pair, history: seq<Inscription>, m: MsgId, tx: TxId)
  {
    exists i :: i in history && i.msg == m && RefusedAmong(t, p, BatchWrites(i), tx)
  }

  ghost predicate Undecodable(history: seq<Inscription>, m: MsgId)
  {
    exists i :: i in history && i.msg == m && i.batch.None?
  }

  /** What applying a history adds to the record, message by message. */
  ghost predicate HistoryRecorded(st: Store, st': Store, t: Target, history: seq<Inscription>, m: MsgId, tx: TxId)
  {
    && ((m, Some(tx)) in st'.control.rejected <==>
          (m, Some(tx)) in st.control.rejected || Refused(t, PairOf(st'), history, m, tx))
    && ((m, None) in st'.control.rejected <==> (m, None) in st.control.rejected || Undecodable(history, m))
    && (tx !in Ids(Writes(history)) ==> SameMark(st, st', tx))
  }

  lemma {:induction false} HistoryRecordsRejections(e: Engine, st: Store, t: Target, history: seq<Inscription>,
                                                    m: MsgId,
                                                    tx: TxId)
    requires DistinctIds(Writes(history))
    ensures HistoryRecorded(st, Run(e, st, ApplyCommits(t, history)), t, history, m, tx)
    decreases |history|
  {
    var st' := Run(e, st, ApplyCommits(t, history));
    if history == [] {
      assert st' == st;
    } else {
      var i, rest := history[0], history[1..];
      var ws, st1 := BatchWrites(i), Run(e, st, InscriptionCommits(t, i));
      assert history == [i] + rest;
      RunConcat(e, st, InscriptionCommits(t, i), ApplyCommits(t, rest));
      PartsAreDistinct(ws, Writes(rest));
      InscriptionRecordsRejections(e, st, t, i);
      HistoryRecordsRejections(e, st1, t, rest, m, tx);
      IdsConcat(ws, Writes(rest));
      InscriptionRecorded(st, st1, t, i, m, tx);
      if tx in Ids(ws) {
        SameMarkSameRefusal(st1, st', t, ws, tx);
      } else {
        NotAmong(ws, tx);
      }
      RefusedSplits(t, PairOf(st'), i, rest, m, tx);
    }
  }

  lemma {:induction false} PartsAreDistinct(xs: seq<Write>, ys: seq<Write>)
    requires DistinctIds(xs + ys)
    ensures DistinctIds(xs) && DistinctIds(ys) && forall tx :: tx in Ids(xs) ==> tx !in Ids(ys)
  {
    IdsContain(xs);
    IdsContain(ys);
    forall i, j | 0 <= i < j < |xs| ensures xs[i].tx != xs[j].tx {
      assert (xs + ys)[i] == xs[i] && (xs + ys)[j] == xs[j];
    }
    forall i, j | 0 <= i < j < |ys| ensures ys[i].tx != ys[j].tx {
      assert (xs + ys)[|xs| + i] == ys[i] && (xs + ys)[|xs| + j] == ys[j];
    }
    forall x, y | x in xs && y in ys ensures x.tx != y.tx {
      var i :| 0 <= i < |xs| && xs[i] == x;
      var j :| 0 <= j < |ys| && ys[j] == y;
      assert (xs + ys)[i] == x && (xs + ys)[|xs| + j] == y;
    }
  }

  lemma {:induction false} NotAmong(ws: seq<Write>, tx: TxId)
    requires tx !in Ids(ws)
    ensures forall t, p :: !RefusedAmong(t, p, ws, tx)
  {
    IdsContain(ws);
  }

  lemma {:induction false} SameMarkSameRefusal(st: Store, st': Store, t: Target, ws: seq<Write>, tx: TxId)
    requires SameMark(st, st', tx)
    ensures RefusedAmong(t, PairOf(st), ws, tx) <==> RefusedAmong(t, PairOf(st'), ws, tx)
  {
    forall w | w in ws && w.tx == tx ensures AcceptedBy(t, PairOf(st), w) <==> AcceptedBy(t, PairOf(st'), w) {
    }
  }

  lemma {:induction false} RefusedSplits(t: Target, p: Pair, i: Inscription, rest: seq<Inscription>, m: MsgId, tx: TxId)
    ensures Refused(t, p, [i] + rest, m, tx)
       <==> (i.msg == m && RefusedAmong(t, p, BatchWrites(i), tx)) || Refused(t, p, rest, m, tx)
    ensures Undecodable([i] + rest, m) <==> (i.msg == m && i.batch.None?) || Undecodable(rest, m)
  {
  }

  lemma {:induction false} InscriptionRecorded(st: Store, st': Store, t: Target, i: Inscription, m: MsgId, tx: TxId)
    requires match i.batch
      case None => st' == st.(control := st.control.(rejected := st.control.rejected + {(i.msg, None)}))
      case Some(ws) => st.control.rejected <= st'.control.rejected && RejectionsRecorded(st, st', t, i.msg, ws)
    ensures (m, Some(tx)) in st'.control.rejected <==>
      (m, Some(tx)) in st.control.rejected || (i.msg == m && RefusedAmong(t, PairOf(st'), BatchWrites(i), tx))
    ensures (m, None) in st'.control.rejected <==> (m, None) in st.control.rejected || (i.msg == m && i.batch.None?)
  {
    if i.batch.Some? && i.msg == m {
      forall w | w in i.batch.value && w.tx == tx ensures Rejection(m, w) == (m, Some(tx)) {
      }
    }
  }

  // ---------------------------------------------------------------------------
  // Whole events

  /** Observing changes neither database and records the messages that do not decode. */
  ghost predicate ObservingRecorded(st: Store, st': Store, history: seq<Inscription>)
  {
    && PairOf(st') == PairOf(st)
    && (forall m: MsgId, tx: TxId :: (m, Some(tx)) in st'.control.rejected <==> (m, Some(tx)) in st.control.rejected)
    && (forall m: MsgId ::
         (m, None) in st'.control.rejected <==> (m, None) in st.control.rejected || Undecodable(history, m))
  }

  lemma {:induction false} ObservingRecords(e: Engine, st: Store, history: seq<Inscription>)
    ensures ObservingRecorded(st, Run(e, st, ObserveCommits(history)), history)
    decreases |history|
  {
    if history == [] {
      assert Run(e, st, ObserveCommits(history)) == st;
    } else {
      var i, rest := history[0], history[1..];
      var c := RecordPayloadRejection(i.msg);
      var part := if i.batch.None? then [c] else [];
      var st1 := Run(e, st, part);
      assert Run(e, st, [c]) == Run(e, Do(e, st, c), []);
      RunConcat(e, st, part, ObserveCommits(rest));
      ObservingRecords(e, st1, rest);
      assert history == [i] + rest;
    }
  }

  lemma {:induction false} StatusCommitsRecord(e: Engine, st: Store, ev: Event, adopted: seq<Inscription>)
    ensures ObservingRecorded(st, Run(e, st, StatusCommits(ev, adopted)), ev.orphaned + adopted)
  {
    var a, b := ObserveCommits(ev.orphaned), ObserveCommits(adopted);
    var c := UpdateStatuses(Messages(ev.finalized), Observe(ev.orphaned), Observe(adopted));
    RunConcat(e, st, a, b);
    RunThenOne(e, st, a + b, c);
    ObservingRecords(e, st, ev.orphaned);
    ObservingRecords(e, Run(e, st, a), adopted);
    forall m: MsgId
      ensures Undecodable(ev.orphaned + adopted, m) <==> Undecodable(ev.orphaned, m) || Undecodable(adopted, m)
    {
    }
  }

  lemma {:induction false} RefusalStays(st: Store, st': Store, t: Target, history: seq<Inscription>, m: MsgId, tx: TxId)
    requires tx in Ids(Writes(history)) ==> SameMark(st, st', tx)
    ensures Refused(t, PairOf(st), history, m, tx) <==> Refused(t, PairOf(st'), history, m, tx)
  {
    forall i | i in history
      ensures RefusedAmong(t, PairOf(st), BatchWrites(i), tx) <==> RefusedAmong(t, PairOf(st'), BatchWrites(i), tx)
    {
      if tx in Ids(Writes(history)) {
        SameMarkSameRefusal(st, st', t, BatchWrites(i), tx);
      } else {
        BatchIsWithin(history, i);
        IdsContain(Writes(history));
      }
    }
  }

  lemma {:induction false} BatchIsWithin(history: seq<Inscription>, i: Inscription)
    requires i in history
    ensures forall w :: w in BatchWrites(i) ==> w in Writes(history)
  {
    if i != history[0] {
      assert history == [history[0]] + history[1..];
      BatchIsWithin(history[1..], i);
    }
  }

  /** The stores between the stages of a direct application. */
  lemma {:induction false} DirectStages(e: Engine, st: Store, ev: Event) returns (st1: Store, st2: Store, st3: Store)
    ensures st1 == Run(e, st, ApplyCommits(LibAndLive, ev.finalized))
    ensures st2 == Run(e, st1, ApplyCommits(LiveOnly, ev.adopted))
    ensures st3 == Run(e, st2, StatusCommits(ev, ev.adopted))
    ensures var st' := Run(e, st, DirectCommits(ev));
      PairOf(st') == PairOf(st3) && st'.control.rejected == st3.control.rejected
  {
    var a, b := ApplyCommits(LibAndLive, ev.finalized), ApplyCommits(LiveOnly, ev.adopted);
    var c := StatusCommits(ev, ev.adopted);
    st1 := Run(e, st, a);
    st2 := Run(e, st1, b);
    st3 := Run(e, st2, c);
    RunConcat(e, st, a, b);
    RunConcat(e, st, a + b, c);
    RunThenOne(e, st, a + b + c, SaveCheckpoint(ev.view));
  }

  /** After a complete direct application, a rejection is on record exactly when it was
      before, or LIB or LIVE does not have the finalized write, or LIVE the adopted
      one. */
  lemma {:induction false} DirectRecordsRejections(e: Engine, st: Store, ev: Event, m: MsgId, tx: TxId)
    requires DistinctIds(AllWrites(ev))
    ensures var st' := Run(e, st, DirectCommits(ev));
      && ((m, Some(tx)) in st'.control.rejected <==>
            || (m, Some(tx)) in st.control.rejected
            || Refused(LibAndLive, PairOf(st'), ev.finalized, m, tx)
            || Refused(LiveOnly, PairOf(st'), ev.adopted, m, tx))
      && ((m, None) in st'.control.rejected <==>
            (m, None) in st.control.rejected || Undecodable(ev.finalized + (ev.orphaned + ev.adopted), m))
  {
    var st1, st2, st3 := DirectStages(e, st, ev);
    PartsAreDistinct(Writes(ev.finalized), Writes(ev.adopted));
    HistoryRecordsRejections(e, st, LibAndLive, ev.finalized, m, tx);
    HistoryRecordsRejections(e, st1, LiveOnly, ev.adopted, m, tx);
    RefusalStays(st1, st2, LibAndLive, ev.finalized, m, tx);
    StatusCommitsRecord(e, st2, ev, ev.adopted);
    UndecodableOfBoth(ev.finalized, ev.orphaned + ev.adopted, m);
    UndecodableOfBoth(ev.orphaned, ev.adopted, m);
  }

  lemma {:induction false} UndecodableOfBoth(xs: seq<Inscription>, ys: seq<Inscription>, m: MsgId)
    ensures Undecodable(xs + ys, m) <==> Undecodable(xs, m) || Undecodable(ys, m)
  {
  }

  lemma {:induction false} PreparingRecords(e: Engine, st: Store, ev: Event, queue: seq<Queued>, m: MsgId, tx: TxId)
    requires DistinctIds(Writes(ev.finalized))
    ensures var st' := Run(e, st, PrepareCommits(ev, queue));
      && ((m, Some(tx)) in st'.control.rejected <==>
            (m, Some(tx)) in st.control.rejected || Refused(LibOnly, PairOf(st'), ev.finalized, m, tx))
  {
    var a, b, c := [RequireRebuild], DisplaceCommits(queue), ApplyCommits(LibOnly, ev.finalized);
    RunConcat(e, st, a, b);
    RunConcat(e, st, a + b, c);
    assert Run(e, st, a) == Run(e, Do(e, st, RequireRebuild), []);
    DisplacingRecordsNothing(e, Run(e, st, a), queue);
    HistoryRecordsRejections(e, Run(e, st, a + b), LibOnly, ev.finalized, m, tx);
  }

  lemma {:induction false} DisplacingRecordsNothing(e: Engine, st: Store, queue: seq<Queued>)
    ensures Run(e, st, DisplaceCommits(queue)).control.rejected == st.control.rejected
    decreases |queue|
  {
    if queue != [] {
      DisplacingRecordsNothing(e, Do(e, st, DisplaceQueued(queue[0])), queue[1..]);
    }
  }

  lemma {:induction false} ReplayRefused(e: Engine, lib: Replica, live: Replica, history: seq<Inscription>, m: MsgId,
                                         tx: TxId)
    requires live == Replay(e, lib, Writes(history))
    ensures ReplayRejected(e, lib, Writes(history), history, m, tx)
       <==> Refused(LiveOnly, Pair(lib, live), history, m, tx)
  {
    forall i | i in history
      ensures RejectedAmong(e, lib, Writes(history), BatchWrites(i), tx)
         <==> RefusedAmong(LiveOnly, Pair(lib, live), BatchWrites(i), tx)
    {
      assert forall w :: OnImage(e, lib, Writes(history), w) <==> AcceptedBy(LiveOnly, Pair(lib, live), w);
    }
  }

  /** The stores between the stages of a rebuild that finishes. */
  lemma {:induction false} FinishStages(e: Engine, st: Store, ev: Event) returns (st1: Store, st2: Store)
    requires (ev.chain.Some? ==> ev.chain.value == ev.view.history) && (ev.chain.Some? || ev.available)
    ensures st1 == Run(e, st, StatusCommits(ev, ev.view.history))
    ensures st2 == Run(e, st1, ReplayCommits([], ev.view.history))
    ensures Run(e, st, FinishCommits(ev))
         == Do(e, Do(e, st2, InstallRebuild(Writes(ev.view.history))), SaveRebuiltCheckpoint(ev.view))
  {
    var h := ev.view.history;
    var a, b := StatusCommits(ev, h), ReplayCommits([], h);
    var c := [InstallRebuild(Writes(h)), SaveRebuiltCheckpoint(ev.view)];
    st1 := Run(e, st, a);
    st2 := Run(e, st1, b);
    assert HistoryFor(ev) == Some(h);
    assert FinishCommits(ev) == a + b + c;
    RunConcat(e, st, a, b);
    RunConcat(e, st, a + b, c);
    RunTwo(e, st2, InstallRebuild(Writes(h)), SaveRebuiltCheckpoint(ev.view));
  }

  lemma InstallingRecordsNothing(e: Engine, st: Store, ws: seq<Write>, view: View)
    ensures var st' := Do(e, Do(e, st, InstallRebuild(ws)), SaveRebuiltCheckpoint(view));
      PairOf(st') == Pair(st.lib, Replay(e, st.lib, ws)) && st'.control.rejected == st.control.rejected
  {
  }

  lemma {:induction false} FinishingRecords(e: Engine, st: Store, ev: Event, m: MsgId, tx: TxId)
    requires (ev.chain.Some? ==> ev.chain.value == ev.view.history) && (ev.chain.Some? || ev.available)
    requires DistinctIds(Writes(ev.view.history))
    ensures var st' := Run(e, st, FinishCommits(ev));
      && st'.lib == st.lib
      && ((m, Some(tx)) in st'.control.rejected <==>
            (m, Some(tx)) in st.control.rejected || Refused(LiveOnly, PairOf(st'), ev.view.history, m, tx))
  {
    var h := ev.view.history;
    var st1, st2 := FinishStages(e, st, ev);
    StatusCommitsRecord(e, st, ev, h);
    InstallingRecordsNothing(e, st2, Writes(h), ev.view);
    assert [] + Writes(h) == Writes(h);
    ReplayRecords(e, st1, [], h, m, tx);
    ReplayRefused(e, st2.lib, Replay(e, st2.lib, Writes(h)), h, m, tx);
  }

  /** After a complete rebuild, a rejection is on record exactly when it was before, or
      LIB does not have the finalized write, or the new LIVE the write of the new
      history. */
  lemma {:induction false} RebuildRecordsRejections(e: Engine, st: Store, ev: Event, m: MsgId, tx: TxId)
    requires ApplicationPlan(st, ev).Rebuild? && (ev.chain.Some? || ev.available)
    requires ev.chain.Some? ==> ev.chain.value == ev.view.history
    requires DistinctIds(Writes(ev.finalized)) && DistinctIds(Writes(ev.view.history))
    ensures var st' := Run(e, st, EventCommits(st, ev));
      (m, Some(tx)) in st'.control.rejected <==>
        || (m, Some(tx)) in st.control.rejected
        || Refused(LibOnly, PairOf(st'), ev.finalized, m, tx)
        || Refused(LiveOnly, PairOf(st'), ev.view.history, m, tx)
  {
    var queue := ApplicationPlan(st, ev).displaced;
    var st1 := Run(e, st, PrepareCommits(ev, queue));
    RunConcat(e, st, PrepareCommits(ev, queue), FinishCommits(ev));
    PreparingRecords(e, st, ev, queue, m, tx);
    FinishingRecords(e, st1, ev, m, tx);
    LibDecides(PairOf(st1), PairOf(Run(e, st1, FinishCommits(ev))), ev.finalized, m, tx);
  }

  lemma {:induction false} LibDecides(p: Pair, p': Pair, history: seq<Inscription>, m: MsgId, tx: TxId)
    requires p.lib == p'.lib
    ensures Refused(LibOnly, p, history, m, tx) <==> Refused(LibOnly, p', history, m, tx)
  {
    forall i | i in history
      ensures RefusedAmong(LibOnly, p, BatchWrites(i), tx) <==> RefusedAmong(LibOnly, p', BatchWrites(i), tx)
    {
      assert forall w :: AcceptedBy(LibOnly, p, w) <==> AcceptedBy(LibOnly, p', w);
    }
  }
}
