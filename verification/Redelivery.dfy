/** An event delivered again after an interrupted attempt: when both databases end
    where one uninterrupted delivery leaves them. */
module Redelivery {
  import opened Wrappers
  import opened SqlHistory
  import opened Commits
  import opened EventEffects
  import opened Resumption

  /** Executing any of these transactions again changes neither database: a write
      that was accepted is skipped by its marker, and one that was rejected is
      rejected again. */
  ghost predicate Settled(e: Engine, p: Pair, cs: seq<Commit>)
  {
    forall c :: c in cs ==> Effect(e, p, c) == p
  }

  /** The guard of one transaction in terms of markers and engine rejections. */
  predicate RejectsAgain(e: Engine, r: Replica, w: Write)
  {
    w.tx in r.applied || e.run(r.data, w.content).None?
  }

  lemma {:induction false} SettledExactlyWhenRejectionsRepeat(e: Engine, p: Pair, w: Write)
    ensures Effect(e, p, AdoptLive(w)) == p <==> RejectsAgain(e, p.live, w)
    ensures Effect(e, p, RebuildLib(w)) == p <==> RejectsAgain(e, p.lib, w)
    ensures Effect(e, p, FinalizeLib(w)) == p <==> Mismatched(p.live, w) || RejectsAgain(e, p.lib, w)
    ensures Effect(e, p, FinalizeLive(w)) == p <==> !IsApplied(p.lib, w) || RejectsAgain(e, p.live, w)
  {
    QuietExactlyWhenMarkedOrRejected(e, p.live, w);
    QuietExactlyWhenMarkedOrRejected(e, p.lib, w);
  }

  lemma {:induction false} SettledEffects(e: Engine, p: Pair, cs: seq<Commit>)
    requires Settled(e, p, cs)
    ensures Effects(e, p, cs) == p
    decreases |cs|
  {
    if cs != [] {
      assert cs[0] in cs;
      SettledEffects(e, p, cs[1..]);
    }
  }

  /** Two attempts: `done` transactions, an interruption, then `again` of them from
      the start. The databases are where the longer attempt alone leaves them. */
  lemma {:induction false} RedeliveryConverges(e: Engine, p: Pair, cs: seq<Commit>, done: nat, again: nat)
    requires done <= |cs| && again <= |cs|
    requires Settled(e, Effects(e, p, cs[..done]), cs[..done])
    ensures Effects(e, Effects(e, p, cs[..done]), cs[..again])
         == Effects(e, p, cs[..if done <= again then again else done])
  {
    var mid := Effects(e, p, cs[..done]);
    if again <= done {
      assert forall c :: c in cs[..again] ==> c in cs[..done];
      SettledEffects(e, mid, cs[..again]);
    } else {
      EffectsSplit(e, mid, cs[..again], done);
      EffectsSplit(e, p, cs[..again], done);
      assert cs[..again][..done] == cs[..done];
      SettledEffects(e, mid, cs[..done]);
    }
  }

  /** The write a transaction executes, if it executes one. */
  function Executes(c: Commit): Option<Write>
  {
    match c
    case FinalizeLib(w) => Some(w)
    case FinalizeLive(w) => Some(w)
    case AdoptLive(w) => Some(w)
    case RebuildLib(w) => Some(w)
    case _ => None
  }

  /** No transaction of `later` executes the id of a write of `earlier`. */
  ghost predicate Disjoint(earlier: seq<Commit>, later: seq<Commit>)
  {
    forall c, c' :: c in earlier && c' in later && Executes(c).Some? && Executes(c').Some?
      ==> Executes(c).value.tx != Executes(c').value.tx
  }

  /** Transactions that do not execute an id do not mark it. */
  lemma {:induction false} EffectsMarkOnlyTheirOwn(e: Engine, p: Pair, cs: seq<Commit>, tx: TxId)
    requires NoInstall(cs) && forall c :: c in cs && Executes(c).Some? ==> Executes(c).value.tx != tx
    ensures tx in Effects(e, p, cs).lib.applied <==> tx in p.lib.applied
    ensures tx in Effects(e, p, cs).live.applied <==> tx in p.live.applied
    decreases |cs|
  {
    if cs != [] {
      assert cs[0] in cs;
      EffectsMarkOnlyTheirOwn(e, Effect(e, p, cs[0]), cs[1..], tx);
    }
  }

  /** The first transaction that would change something on redelivery. */
  lemma {:induction false} FirstUnsettled(e: Engine, p: Pair, cs: seq<Commit>) returns (i: nat)
    requires !Settled(e, p, cs)
    ensures i < |cs| && Effect(e, p, cs[i]) != p && Settled(e, p, cs[..i])
    decreases |cs|
  {
    if Effect(e, p, cs[0]) != p {
      i := 0;
    } else {
      assert cs == [cs[0]] + cs[1..];
      var j := FirstUnsettled(e, p, cs[1..]);
      i := j + 1;
      assert cs[..i] == [cs[0]] + cs[1..][..j];
    }
  }

  /** Redelivery after `done` transactions converges exactly when every one of them is
      settled, provided no transaction from `d` on reuses an id of one before `d`,
      and those between `d` and `done` are settled. */
  lemma {:induction false} DisjointRedelivery(e: Engine, p: Pair, cs: seq<Commit>, d: nat, done: nat)
    requires d <= done <= |cs| && NoInstall(cs) && Disjoint(cs[..d], cs[d..])
    requires Settled(e, Effects(e, p, cs[..done]), cs[d..done])
    ensures var mid := Effects(e, p, cs[..done]);
      Effects(e, mid, cs) == Effects(e, p, cs) <==> Settled(e, mid, cs[..done])
  {
    var mid := Effects(e, p, cs[..done]);
    assert cs[..|cs|] == cs;
    if Settled(e, mid, cs[..done]) {
      RedeliveryConverges(e, p, cs, done, |cs|);
    } else {
      var i := FirstUnsettled(e, mid, cs[..done]);
      assert forall k :: d <= k < done ==> cs[k] == cs[d..done][k - d];
      RedeliveryDiverges(e, p, cs, d, done, i);
    }
  }

  lemma {:induction false} RedeliveryDiverges(e: Engine, p: Pair, cs: seq<Commit>, d: nat, done: nat, i: nat)
    requires i < d <= done <= |cs| && NoInstall(cs) && Disjoint(cs[..d], cs[d..])
    requires var mid := Effects(e, p, cs[..done]); Effect(e, mid, cs[i]) != mid && Settled(e, mid, cs[..i])
    ensures Effects(e, Effects(e, p, cs[..done]), cs) != Effects(e, p, cs)
  {
    var mid, c := Effects(e, p, cs[..done]), cs[i];
    assert c in cs[..d] && c in cs;
    var tx := Executes(c).value.tx;
    // On redelivery the transaction marks its id, and the mark stays.
    SettledEffects(e, mid, cs[..i]);
    var marked := Effect(e, mid, c);
    assert cs[..i + 1] == cs[..i] + [c];
    EffectsConcat(e, mid, cs[..i], [c]);
    assert Effects(e, mid, [c]) == Effects(e, marked, []);
    EffectsSplit(e, mid, cs, i + 1);
    EffectsKeep(e, marked, cs[i + 1..]);
    // Without the interruption nothing after `done` marks it.
    EffectsSplit(e, p, cs, done);
    assert forall c' :: c' in cs[done..] ==> c' in cs[d..];
    EffectsMarkOnlyTheirOwn(e, mid, cs[done..], tx);
  }

  lemma {:induction false} ExecutionsInstallNothing(ev: Event)
    ensures NoInstall(DirectExecutions(ev))
  {
    var xs := DirectExecutions(ev);
    forall c | c in xs
      ensures !c.InstallRebuild? && !c.CommitLocal?
    {
      var i :| 0 <= i < |xs| && xs[i] == c;
      ExecutionAt(ev, i);
    }
  }

  lemma {:induction false} ExecutionIdsDiffer(ev: Event, d: nat, i: nat, j: nat)
    requires DistinctIds(AllWrites(ev)) && i < d <= j < |DirectExecutions(ev)|
    requires d % 2 == 0 || d >= 2 * |Writes(ev.finalized)|
    ensures Executes(DirectExecutions(ev)[i]).Some? && Executes(DirectExecutions(ev)[j]).Some?
    ensures Executes(DirectExecutions(ev)[i]).value.tx != Executes(DirectExecutions(ev)[j]).value.tx
  {
    var f, ws := |Writes(ev.finalized)|, AllWrites(ev);
    var n, m := if i < 2 * f then i / 2 else i - f, if j < 2 * f then j / 2 else j - f;
    ExecutionAt(ev, i);
    ExecutionAt(ev, j);
    assert n < m;
    assert ws[n].tx != ws[m].tx;
  }

  lemma {:induction false} ExecutionsDiffer(ev: Event, d: nat)
    requires DistinctIds(AllWrites(ev)) && d <= |DirectExecutions(ev)|
    requires d % 2 == 0 || d >= 2 * |Writes(ev.finalized)|
    ensures NoInstall(DirectExecutions(ev)) && Disjoint(DirectExecutions(ev)[..d], DirectExecutions(ev)[d..])
  {
    var xs := DirectExecutions(ev);
    ExecutionsInstallNothing(ev);
    forall c, c' | c in xs[..d] && c' in xs[d..]
      ensures Executes(c).Some? && Executes(c').Some? ==> Executes(c).value.tx != Executes(c').value.tx
    {
      var i :| 0 <= i < d && xs[i] == c;
      var j :| d <= j < |xs| && xs[j] == c';
      ExecutionIdsDiffer(ev, d, i, j);
    }
  }

  lemma {:induction false} ControlIsSettled(e: Engine, p: Pair, cs: seq<Commit>)
    ensures Settled(e, p, cs) <==> Settled(e, p, Executions(cs))
    decreases |cs|
  {
    if cs != [] {
      ControlIsSettled(e, p, cs[1..]);
      assert cs == [cs[0]] + cs[1..];
    }
  }

  /** The write that only LIB has executed is settled on the state it left. */
  lemma {:induction false} LastFinalizeIsSettled(e: Engine, p: Pair, w: Write)
    ensures var p' := Effect(e, p, FinalizeLib(w)); Effect(e, p', FinalizeLib(w)) == p'
  {
  }

  /** For every event with distinct write ids and every cut, LIB committed without LIVE
      included: delivering the event again leads where one uninterrupted delivery
      leads if and only if everything executed before the cut is skipped or rejected
      again. */
  lemma {:induction false} RedeliveryConvergesExactlyWhenSettled(e: Engine, p: Pair, ev: Event, done: nat)
    requires DistinctIds(AllWrites(ev)) && done <= |DirectCommits(ev)|
    ensures var cs := DirectCommits(ev); var mid := Effects(e, p, cs[..done]);
      Effects(e, mid, cs) == Effects(e, p, cs) <==> Settled(e, mid, cs[..done])
  {
    var cs, xs := DirectCommits(ev), DirectExecutions(ev);
    ExecutionsOfDirect(ev);
    ExecutionsPrefix(cs, done);
    var m := |Executions(cs[..done])|;
    assert Executions(cs[..done]) == xs[..m];
    EffectsOfExecutions(e, p, cs[..done]);
    var mid := Effects(e, p, xs[..m]);
    DirectEffects(e, p, ev);
    DirectEffects(e, mid, ev);
    ControlIsSettled(e, mid, cs[..done]);
    ExecutionsRedelivered(e, p, ev, m);
  }

  lemma {:induction false} ExecutionsRedelivered(e: Engine, p: Pair, ev: Event, m: nat)
    requires DistinctIds(AllWrites(ev)) && m <= |DirectExecutions(ev)|
    ensures var xs := DirectExecutions(ev); var mid := Effects(e, p, xs[..m]);
      Effects(e, mid, xs) == Effects(e, p, xs) <==> Settled(e, mid, xs[..m])
  {
    var xs := DirectExecutions(ev);
    var d := if m % 2 == 1 && m < 2 * |Writes(ev.finalized)| then m - 1 else m;
    ExecutionsDiffer(ev, d);
    if d < m {
      ExecutionAt(ev, d);
      EffectsNext(e, p, xs, d);
      LastFinalizeIsSettled(e, Effects(e, p, xs[..d]), xs[d].w);
      assert xs[d..m] == [xs[d]];
    }
    DisjointRedelivery(e, p, xs, d, m);
  }

  lemma {:induction false} AdoptsTwo(ev: Event, msg: MsgId, w: Write, w': Write)
    requires ev.finalized == [] && ev.adopted == [Inscription(msg, Some([w, w']))]
    ensures |DirectCommits(ev)| > 4
    ensures DirectCommits(ev)[0] == AdoptLive(w) && ControlOnly(DirectCommits(ev)[1])
    ensures DirectCommits(ev)[2] == AdoptLive(w')
  {
    assert [w, w'][1..] == [w'] && [w'][1..] == [];
    assert BatchCommits(LiveOnly, msg, [w']) == WriteCommits(LiveOnly, msg, w') + [];
    assert BatchCommits(LiveOnly, msg, [w, w']) == WriteCommits(LiveOnly, msg, w) + BatchCommits(LiveOnly, msg, [w']);
    assert ApplyCommits(LiveOnly, ev.adopted) == BatchCommits(LiveOnly, msg, [w, w']) + [];
  }

  lemma {:induction false} AfterAdoptingTwo(e: Engine, p: Pair, ev: Event, msg: MsgId, w: Write, w': Write)
    requires ev.finalized == [] && ev.adopted == [Inscription(msg, Some([w, w']))]
    ensures |DirectCommits(ev)| > 4 && DirectCommits(ev)[0] == AdoptLive(w)
    ensures Effects(e, p, DirectCommits(ev)[..3]) == p.(live := ApplyWrite(e, ApplyWrite(e, p.live, w), w'))
  {
    var cs := DirectCommits(ev);
    AdoptsTwo(ev, msg, w, w');
    EffectsNext(e, p, cs, 0);
    EffectsNext(e, p, cs, 1);
    EffectsNext(e, p, cs, 2);
    assert cs[..0] == [];
  }

  /** A batch whose first write needs its second: rejected on first delivery, the first
      write is accepted when the event is delivered again after the second one
      committed. */
  lemma {:induction false} DependentBatchDiverges(e: Engine, p: Pair, ev: Event, msg: MsgId, w: Write, w': Write)
    requires ev.finalized == [] && ev.adopted == [Inscription(msg, Some([w, w']))] && w.tx != w'.tx
    requires w.tx !in p.live.applied && w'.tx !in p.live.applied && e.run(p.live.data, w.content).None?
    requires e.run(p.live.data, w'.content).Some? && e.run(e.run(p.live.data, w'.content).value, w.content).Some?
    ensures |DirectCommits(ev)| > 4
    ensures Effects(e, Effects(e, p, DirectCommits(ev)[..3]), DirectCommits(ev)) != Effects(e, p, DirectCommits(ev))
  {
    var cs := DirectCommits(ev);
    AfterAdoptingTwo(e, p, ev, msg, w, w');
    var mid := Effects(e, p, cs[..3]);
    assert cs[0] in cs[..3];
    assert w.tx !in mid.live.applied && w.tx in Effect(e, mid, cs[0]).live.applied;
    WritesOne(ev.adopted[0]);
    assert AllWrites(ev) == [w, w'];
    RedeliveryConvergesExactlyWhenSettled(e, p, ev, 3);
  }

  lemma {:induction false} RedeliveryCanDiverge()
    ensures exists e: Engine, p: Pair, ev: Event, done: nat ::
      && done < |DirectCommits(ev)|
      && Effects(e, Effects(e, p, DirectCommits(ev)[..done]), DirectCommits(ev)) != Effects(e, p, DirectCommits(ev))
  {
    // Content 1 creates a table; content 2 inserts into it.
    var e := Engine(0, (data: Data, c: Content) =>
      if c == 1 then Some(1) else if data == 1 then Some(2) else None, c => c);
    var i := Inscription(7, Some([Write(20, 2), Write(10, 1)]));
    var ev := Event([i], [], [], None, true, View([], [i]));
    var p := Pair(EmptyReplica(e), EmptyReplica(e));
    DependentBatchDiverges(e, p, ev, 7, Write(20, 2), Write(10, 1));
  }
}
