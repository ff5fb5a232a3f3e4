/** What transactions do to LIB and LIVE, apart from the queue and the control store. */
module EventEffects {
  import opened Wrappers
  import opened SqlHistory
  import opened Commits

  /** The two replicated databases, without the queue and the control store. */
  datatype Pair = Pair(lib: Replica, live: Replica)

  function PairOf(st: Store): Pair
  {
    Pair(st.lib, st.live)
  }

  /** The effect of a commit on the replicated databases depends on nothing else. */
  function Effect(e: Engine, p: Pair, c: Commit): Pair
  {
    match c
    case CommitLocal(q) => p.(live := ApplyWrite(e, p.live, q.write))
    case FinalizeLib(w) => if Mismatched(p.live, w) then p else p.(lib := ApplyWrite(e, p.lib, w))
    case FinalizeLive(w) => if IsApplied(p.lib, w) then p.(live := ApplyWrite(e, p.live, w)) else p
    case AdoptLive(w) => p.(live := ApplyWrite(e, p.live, w))
    case RebuildLib(w) => p.(lib := ApplyWrite(e, p.lib, w))
    case InstallRebuild(replayed) => p.(live := Replay(e, p.lib, replayed))
    case _ => p
  }

  function Effects(e: Engine, p: Pair, cs: seq<Commit>): Pair
    decreases |cs|
  {
    if cs == [] then p else Effects(e, Effect(e, p, cs[0]), cs[1..])
  }

  lemma {:induction false} EffectsOfRun(e: Engine, st: Store, cs: seq<Commit>)
    ensures PairOf(Run(e, st, cs)) == Effects(e, PairOf(st), cs)
    decreases |cs|
  {
    if cs != [] {
      assert PairOf(Do(e, st, cs[0])) == Effect(e, PairOf(st), cs[0]);
      EffectsOfRun(e, Do(e, st, cs[0]), cs[1..]);
    }
  }

  lemma {:induction false} EffectsConcat(e: Engine, p: Pair, xs: seq<Commit>, ys: seq<Commit>)
    ensures Effects(e, p, xs + ys) == Effects(e, Effects(e, p, xs), ys)
    decreases |xs|
  {
    if xs == [] {
      assert xs + ys == ys;
    } else {
      assert (xs + ys)[1..] == xs[1..] + ys;
      EffectsConcat(e, Effect(e, p, xs[0]), xs[1..], ys);
    }
  }

  lemma {:induction false} EffectsSplit(e: Engine, p: Pair, cs: seq<Commit>, i: nat)
    requires i <= |cs|
    ensures Effects(e, p, cs) == Effects(e, Effects(e, p, cs[..i]), cs[i..])
  {
    assert cs == cs[..i] + cs[i..];
    EffectsConcat(e, p, cs[..i], cs[i..]);
  }

  /** Control transactions leave the replicated databases alone. */
  predicate ControlOnly(c: Commit)
  {
    !c.CommitLocal? && !c.FinalizeLib? && !c.FinalizeLive? && !c.AdoptLive? && !c.RebuildLib? && !c.InstallRebuild?
  }

  lemma {:induction false} StatusCommitsAreControl(ev: Event, adopted: seq<Inscription>)
    ensures forall c :: c in StatusCommits(ev, adopted) ==> ControlOnly(c)
  {
    ObserveCommitsAreControl(ev.orphaned);
    ObserveCommitsAreControl(adopted);
  }

  lemma {:induction false} ObserveCommitsAreControl(history: seq<Inscription>)
    ensures forall c :: c in ObserveCommits(history) ==> ControlOnly(c) && c.RecordPayloadRejection?
  {
    if history != [] {
      ObserveCommitsAreControl(history[1..]);
    }
  }

  lemma {:induction false} ReplayBatchCommitsAreControl(msg: MsgId, before: seq<Write>, ws: seq<Write>)
    ensures forall c :: c in ReplayBatchCommits(msg, before, ws) ==> ControlOnly(c) && c.RecordRebuildRejection?
    decreases |ws|
  {
    if ws != [] {
      ReplayBatchCommitsAreControl(msg, before + [ws[0]], ws[1..]);
    }
  }

  lemma {:induction false} ReplayCommitsAreControl(before: seq<Write>, history: seq<Inscription>)
    ensures forall c :: c in ReplayCommits(before, history) ==>
              ControlOnly(c) && (c.RecordRebuildRejection? || c.RecordPayloadRejection?)
    decreases |history|
  {
    if history != [] {
      ReplayCommitsAreControl(before + BatchWrites(history[0]), history[1..]);
      if history[0].batch.Some? {
        ReplayBatchCommitsAreControl(history[0].msg, before, history[0].batch.value);
      }
    }
  }
}
