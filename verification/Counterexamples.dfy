/** Runs in which every action is enabled and the databases do not agree between
    events. Each of the four misses exactly one hypothesis of the steady runs, and only
    in its last step, so none of the hypotheses follows from the others. */
module Counterexamples {
  import opened Wrappers
  import opened SqlHistory
  import opened WriteStatuses
  import opened Commits
  import opened EventEffects
  import opened Convergence
  import opened Resumption
  import opened Redelivery
  import opened Participant
  import opened QueueLemmas
  import opened Invariant
  import opened EventProofs
  import opened Agreement
  import opened RunTheorems

  /** Between events, with no rebuild pending, LIVE is not the replay. */
  ghost predicate Diverged(e: Engine, s: System)
  {
    && s.interrupted.None? && !s.store.control.rebuild
    && s.store.live != Expected(e, s.store.control.checkpoint, s.store.queue)
  }

  /** A steady run that ends in `s`. */
  ghost predicate Reachable(e: Engine, cfg: Config, s: System)
  {
    exists states, actions :: IsSteadyRun(e, cfg, states, actions) && states[|states| - 1] == s
  }

  /** One enabled and steady step. */
  ghost predicate Takes(e: Engine, cfg: Config, s: System, a: Action, s': System)
  {
    Enabled(e, cfg, s, a) && Steady(e, s, a) && s' == Step(e, s, a)
  }

  ghost predicate AllTaken(e: Engine, cfg: Config, states: seq<System>, actions: seq<Action>)
    requires |states| == |actions| + 1
  {
    forall i :: 0 <= i < |actions| ==> Takes(e, cfg, states[i], actions[i], states[i + 1])
  }

  lemma {:induction false} SteadyRunTakes(e: Engine, cfg: Config, states: seq<System>, actions: seq<Action>)
    ensures IsSteadyRun(e, cfg, states, actions) <==>
      |states| == |actions| + 1 && states[0] == Initial(e) && AllTaken(e, cfg, states, actions)
  {
    if |states| == |actions| + 1 && AllTaken(e, cfg, states, actions) {
      forall i | 0 <= i < |actions|
        ensures Enabled(e, cfg, states[i], actions[i]) && states[i + 1] == Step(e, states[i], actions[i])
        ensures Steady(e, states[i], actions[i])
      {
        assert Takes(e, cfg, states[i], actions[i], states[i + 1]);
      }
    }
  }

  lemma {:induction false} TakesOneMore(e: Engine, cfg: Config, states: seq<System>, actions: seq<Action>, a: Action,
                                        s: System)
    requires |states| == |actions| + 1 && AllTaken(e, cfg, states, actions) && Takes(e, cfg, states[|actions|], a, s)
    ensures AllTaken(e, cfg, states + [s], actions + [a])
  {
    var more, acts := states + [s], actions + [a];
    forall i | 0 <= i < |acts|
      ensures Takes(e, cfg, more[i], acts[i], more[i + 1])
    {
      assert i < |actions| ==> Takes(e, cfg, states[i], actions[i], states[i + 1]);
    }
  }

  lemma {:induction false} OneMore(e: Engine, cfg: Config, s: System, a: Action)
    requires Reachable(e, cfg, s) && Enabled(e, cfg, s, a) && Steady(e, s, a)
    ensures Reachable(e, cfg, Step(e, s, a))
  {
    var states, actions :| IsSteadyRun(e, cfg, states, actions) && states[|states| - 1] == s;
    var more, acts := states + [Step(e, s, a)], actions + [a];
    SteadyRunTakes(e, cfg, states, actions);
    TakesOneMore(e, cfg, states, actions, a, Step(e, s, a));
    SteadyRunTakes(e, cfg, more, acts);
    assert more[|more| - 1] == Step(e, s, a);
  }

  lemma {:induction false} ReachableIsGood(e: Engine, cfg: Config, s: System)
    requires Reachable(e, cfg, s)
    ensures Inv(cfg, s) && Agree(e, s)
  {
    var states, actions :| IsSteadyRun(e, cfg, states, actions) && states[|states| - 1] == s;
    RunKeepsInv(e, cfg, states, actions, |states| - 1);
    RunKeepsAgreement(e, cfg, states, actions, |states| - 1);
  }

  /** A step that diverges is not steady. */
  lemma {:induction false} DivergesOnlyUnsteady(e: Engine, cfg: Config, s: System, a: Action)
    requires Reachable(e, cfg, s) && Enabled(e, cfg, s, a) && Diverged(e, Step(e, s, a))
    ensures !Steady(e, s, a)
  {
    if Steady(e, s, a) {
      var s' := Step(e, s, a);
      AgreementBetweenEvents(e, s'.store);
      OneMore(e, cfg, s, a);
      ReachableIsGood(e, cfg, s');
    }
  }

  /** A fresh participant, started. */
  ghost function Fresh(e: Engine): System
  {
    System(Initial(e).store, Up(false, false, None, Idle), None, [])
  }

  lemma {:induction false} FreshIsReachable(e: Engine, cfg: Config)
    ensures Reachable(e, cfg, Fresh(e))
  {
    assert IsSteadyRun(e, cfg, [Initial(e)], []);
    assert [Initial(e)][|[Initial(e)]| - 1] == Initial(e);
    RestartsIdle(e, cfg, Initial(e));
    OneMore(e, cfg, Initial(e), Restart(0));
  }

  /** A restart with nothing queued and no saved history. */
  lemma {:induction false} RestartsIdle(e: Engine, cfg: Config, s: System)
    requires s.process.Down? && s.store.control.checkpoint.history == []
    ensures Enabled(e, cfg, s, Restart(0)) && Steady(e, s, Restart(0))
    ensures Step(e, s, Restart(0)) == s.(process := Up(false, false, None, Idle))
  {
    var v := s.store.control.checkpoint;
    assert RecoverCommits(v, v.history, s.store.queue) == [];
    assert Run(e, s.store, []) == s.store;
  }

  /** An event that adopts one inscription on an empty channel. */
  function Adoption(i: Inscription): Event
  {
    Event([i], [], [], None, true, View([], [i]))
  }

  lemma {:induction false} AdoptionIsEnabled(e: Engine, cfg: Config, s: System, i: Inscription, k: nat)
    requires s.process.Up? && s.process.publish.Idle?
    requires s.process.retrying.None? || s.process.retrying == Some(Adoption(i))
    requires s.store.control.checkpoint == View([], []) && !s.store.control.rebuild && i.batch != Some([])
    requires forall w, x :: w in QueuedWrites(s.store.queue) && x in BatchWrites(i) ==> w.tx != x.tx
    requires k <= |EventCommits(s.store, Adoption(i))|
    ensures Enabled(e, cfg, s, AttemptEvent(Adoption(i), k))
    ensures Extends(View([], []), Adoption(i)) && NewWrites(View([], []), Adoption(i)) == BatchWrites(i)
  {
    var ev, v := Adoption(i), View([], []);
    WritesOne(i);
    IdsContain(BatchWrites(i));
    assert Writes([]) == [] && Ids([]) == [];
    assert NewWrites(v, ev) == [] + BatchWrites(i) == BatchWrites(i);
  }

  lemma {:induction false} PlanWithoutQueue(st: Store, i: Inscription)
    requires st.queue == [] && !st.control.rebuild
    ensures ApplicationPlan(st, Adoption(i)).ApplyChanges?
    ensures EventCommits(st, Adoption(i)) == DirectCommits(Adoption(i))
  {
  }

  /** The state after a complete direct attempt. */
  lemma {:induction false} DirectlyStored(e: Engine, st: Store, ev: Event)
    requires ValidTracking(st.control.tracking) && AllUnpublished(st) && SequencerContract(st, ev)
    ensures var st' := Run(e, st, DirectCommits(ev));
      && st'.queue == st.queue && st'.control.checkpoint == ev.view && st'.control.rebuild == st.control.rebuild
      && PairOf(st') == Effects(e, PairOf(st), DirectCommits(ev))
  {
    var mid := DirectResult(e, st, ev);
    EffectsOfRun(e, st, DirectCommits(ev));
  }

  lemma {:induction false} DirectlyCompletes(e: Engine, cfg: Config, s: System, ev: Event)
    requires AttemptReady(cfg, s, ev) && EventCommits(s.store, ev) == DirectCommits(ev) && !s.store.control.rebuild
    ensures var s' := Step(e, s, AttemptEvent(ev, |DirectCommits(ev)|));
      && s' == System(Run(e, s.store, DirectCommits(ev)), Applied(s.process), None, s.committed)
      && s'.store.queue == s.store.queue && s'.store.control.checkpoint == ev.view && !s'.store.control.rebuild
      && PairOf(s'.store) == Effects(e, PairOf(s.store), DirectCommits(ev))
  {
    CompletedStep(e, s, ev, DirectCommits(ev));
    DirectlyStored(e, s.store, ev);
  }

  // ---------------------------------------------------------------------------
  // A different event

  /** An event adopts one write and is interrupted after it; after a restart another
      event adopts, at the same saved position, an inscription that does not decode, and
      is applied directly. LIVE keeps the write, which the channel no longer has. */
  lemma {:induction false} DifferentEventCanDiverge()
    ensures exists e: Engine, cfg: Config, s: System, ev: Event, k: nat ::
      && Reachable(e, cfg, s) && Enabled(e, cfg, s, AttemptEvent(ev, k))
      && ExtendsHistory(s.store, ev) && !Continues(s.store, Done(s), ev)
      && RejectionsRepeat(e, s.store, Done(s), ev) && StaleRejectionsHold(e, s.store, ev)
      && Diverged(e, Step(e, s, AttemptEvent(ev, k)))
  {
    var e, cfg, x := Engine(0, (data: Data, c: Content) => Some(c), c => c), Config(1, 1, 1), Write(10, 1);
    var s := StopsAfterFirst(e, cfg, Inscription(7, Some([x])), x);
    OtherEventDiverges(e, cfg, s, x, Inscription(8, None));
  }

  lemma {:induction false} OtherEventDiverges(e: Engine, cfg: Config, s: System, x: Write, i: Inscription)
    requires Reachable(e, cfg, s) && s.process == Up(false, false, None, Idle)
    requires s.interrupted == Some(Interrupted([], [x]))
    requires s.store.queue == [] && s.store.control.checkpoint == View([], []) && !s.store.control.rebuild
    requires x.tx in s.store.live.applied && i.batch.None?
    ensures var ev := Adoption(i); var a := AttemptEvent(ev, |DirectCommits(ev)|);
      && Enabled(e, cfg, s, a) && Diverged(e, Step(e, s, a))
      && ExtendsHistory(s.store, ev) && !Continues(s.store, Done(s), ev)
      && RejectionsRepeat(e, s.store, Done(s), ev) && StaleRejectionsHold(e, s.store, ev)
  {
    var ev := Adoption(i);
    PlanWithoutQueue(s.store, i);
    assert QueuedWrites([]) == [];
    AdoptionIsEnabled(e, cfg, s, i, |DirectCommits(ev)|);
    DroppedMarkDiverges(e, cfg, s, x.tx, ev);
    DivergesOnlyUnsteady(e, cfg, s, AttemptEvent(ev, |DirectCommits(ev)|));
  }

  /** A direct application keeps every mark of LIVE, so one that the new history does not
      give diverges. */
  lemma {:induction false} DroppedMarkDiverges(e: Engine, cfg: Config, s: System, tx: TxId, ev: Event)
    requires Reachable(e, cfg, s) && Enabled(e, cfg, s, AttemptEvent(ev, |DirectCommits(ev)|))
    requires EventCommits(s.store, ev) == DirectCommits(ev) && s.store.queue == [] && !s.store.control.rebuild
    requires tx in s.store.live.applied && tx !in Ids(Writes(ev.view.finalized) + Writes(ev.view.history))
    ensures Diverged(e, Step(e, s, AttemptEvent(ev, |DirectCommits(ev)|)))
  {
    ReachableIsGood(e, cfg, s);
    AttemptStart(e, cfg, s, ev, |DirectCommits(ev)|);
    DirectlyCompletes(e, cfg, s, ev);
    DirectKeepsMarks(e, PairOf(s.store), ev, 0);
    assert DirectCommits(ev)[..0] == [];
    NoMarkExpected(e, ev.view, tx);
  }

  lemma {:induction false} NoMarkExpected(e: Engine, v: View, tx: TxId)
    requires tx !in Ids(Writes(v.finalized) + Writes(v.history))
    ensures tx !in Expected(e, v, []).applied
  {
    var ws := Writes(v.finalized) + Writes(v.history);
    assert QueuedWrites([]) == [] && ws + [] == ws;
    ExpectedIsOneReplay(e, v, []);
    IdsContain(ws);
    if tx in Expected(e, v, []).applied {
      MarkersOfReplay(e, EmptyReplica(e), ws, tx);
    }
  }

  /** Adopting `[x]` is interrupted after its first transaction, by a crash. */
  lemma {:induction false} StopsAfterFirst(e: Engine, cfg: Config, i: Inscription, x: Write) returns (s: System)
    requires i.batch == Some([x]) && e.run(e.empty, x.content).Some?
    ensures Reachable(e, cfg, s)
    ensures s.process == Up(false, false, None, Idle) && s.interrupted == Some(Interrupted([], [x]))
    ensures s.committed == []
    ensures s.store.queue == [] && s.store.control.checkpoint == View([], []) && !s.store.control.rebuild
    ensures s.store.lib == EmptyReplica(e) && x.tx in s.store.live.applied
  {
    var s0, ev := Fresh(e), Adoption(i);
    AdoptsOne(i, x);
    FreshAdoption(e, cfg, i, 1);
    var s1 := Step(e, s0, AttemptEvent(ev, 1));
    FirstOnly(e, s0, i, x);
    var s2 := Step(e, s1, Crash);
    OneMore(e, cfg, s1, Crash);
    RestartsIdle(e, cfg, s2);
    OneMore(e, cfg, s2, Restart(0));
    s := Step(e, s2, Restart(0));
  }

  lemma {:induction false} AdoptsOne(i: Inscription, x: Write)
    requires i.batch == Some([x])
    ensures |DirectCommits(Adoption(i))| == 4
    ensures DirectCommits(Adoption(i))[0] == AdoptLive(x)
    ensures DirectCommits(Adoption(i))[1] == RecordAdoptRejection(i.msg, x)
  {
    var ev := Adoption(i);
    assert [x][1..] == [];
    assert BatchCommits(LiveOnly, i.msg, [x]) == WriteCommits(LiveOnly, i.msg, x) + [];
    assert ApplyCommits(LiveOnly, [i]) == BatchCommits(LiveOnly, i.msg, [x]) + [];
    assert ObserveCommits([i]) == [] + [];
  }

  lemma {:induction false} OneExecuted(e: Engine, s: System, i: Inscription, x: Write, st: Store)
    requires s == Fresh(e) && i.batch == Some([x]) && st.live == ApplyWrite(e, EmptyReplica(e), x)
    requires |DirectCommits(Adoption(i))| == 4 && DirectCommits(Adoption(i))[0] == AdoptLive(x)
    requires EventCommits(s.store, Adoption(i)) == DirectCommits(Adoption(i))
    requires ApplicationPlan(s.store, Adoption(i)).ApplyChanges?
    ensures Stopped(e, s, Adoption(i), 1, st) == Interrupted([], [x])
  {
    var ev := Adoption(i);
    var cs := DirectCommits(ev)[..1];
    assert cs == [AdoptLive(x)];
    assert Executions(cs) == [AdoptLive(x)] + Executions([]);
    WritesOne(i);
    assert Writes([]) == [] && NewWrites(View([], []), ev) == [] + [x] == [x];
    assert Tip(e, View([], [])) == EmptyReplica(e);
    assert Replay(e, EmptyReplica(e), [x]) == Replay(e, ApplyWrite(e, EmptyReplica(e), x), []);
  }

  lemma {:induction false} FirstOnly(e: Engine, s: System, i: Inscription, x: Write)
    requires s == Fresh(e) && i.batch == Some([x]) && e.run(e.empty, x.content).Some?
    ensures var s' := Step(e, s, AttemptEvent(Adoption(i), 1));
      && s' == System(s.store.(live := ApplyWrite(e, s.store.live, x)), s.process.(retrying := Some(Adoption(i))),
                      Some(Interrupted([], [x])), [])
      && x.tx in s'.store.live.applied
  {
    var ev, st := Adoption(i), s.store;
    var cs, st' := DirectCommits(ev)[..1], Do(e, st, AdoptLive(x));
    PlanWithoutQueue(st, i);
    AdoptsOne(i, x);
    assert cs == [AdoptLive(x)];
    assert Run(e, st, cs) == Run(e, st', []);
    InterruptedStep(e, s, ev, cs);
    OneExecuted(e, s, i, x, st');
  }

  // ---------------------------------------------------------------------------
  // A fork that is not reported

  /** A backfill: the finalized history goes on with one inscription, and nothing is
      above it. */
  function Backfill(i: Inscription): Event
  {
    Event([], [], [i], None, true, View([i], []))
  }

  /** A write is adopted; then a backfill finalizes another branch without reporting the
      write as orphaned. LIVE keeps the write, which the channel no longer has. */
  lemma {:induction false} UnreportedForkCanDiverge()
    ensures exists e: Engine, cfg: Config, s: System, ev: Event, k: nat ::
      && Reachable(e, cfg, s) && Enabled(e, cfg, s, AttemptEvent(ev, k))
      && !ExtendsHistory(s.store, ev) && Continues(s.store, Done(s), ev)
      && RejectionsRepeat(e, s.store, Done(s), ev) && StaleRejectionsHold(e, s.store, ev)
      && Diverged(e, Step(e, s, AttemptEvent(ev, k)))
  {
    var e, cfg, x := Engine(0, (data: Data, c: Content) => Some(c), c => c), Config(1, 1, 1), Write(10, 1);
    var s := AdoptsFirst(e, cfg, Inscription(7, Some([x])), x);
    var ev := Backfill(Inscription(8, Some([Write(20, 2)])));
    BackfillIsEnabled(e, cfg, s, Inscription(8, Some([Write(20, 2)])), |DirectCommits(ev)|);
    WritesOne(ev.finalized[0]);
    IdsContain(Writes(ev.view.finalized) + Writes(ev.view.history));
    DroppedMarkDiverges(e, cfg, s, x.tx, ev);
    DivergesOnlyUnsteady(e, cfg, s, AttemptEvent(ev, |DirectCommits(ev)|));
  }

  lemma {:induction false} BackfillIsEnabled(e: Engine, cfg: Config, s: System, i: Inscription, k: nat)
    requires s.process == Up(false, false, None, Idle) && s.interrupted.None? && s.store.queue == []
    requires s.store.control.checkpoint.finalized == [] && !s.store.control.rebuild && k <= |DirectCommits(Backfill(i))|
    ensures Enabled(e, cfg, s, AttemptEvent(Backfill(i), k))
    ensures EventCommits(s.store, Backfill(i)) == DirectCommits(Backfill(i))
    ensures Continues(s.store, Done(s), Backfill(i)) && RejectionsRepeat(e, s.store, Done(s), Backfill(i))
    ensures StaleRejectionsHold(e, s.store, Backfill(i))
  {
    assert QueuedWrites([]) == [];
  }

  /** `[x]` is adopted. */
  lemma {:induction false} AdoptsFirst(e: Engine, cfg: Config, i: Inscription, x: Write) returns (s: System)
    requires i.batch == Some([x]) && e.run(e.empty, x.content).Some?
    ensures Reachable(e, cfg, s) && s.process == Up(false, false, None, Idle) && s.interrupted.None?
    ensures s.store.queue == [] && s.store.control.checkpoint == View([], [i]) && !s.store.control.rebuild
    ensures x.tx in s.store.live.applied
  {
    var s0, ev := Fresh(e), Adoption(i);
    FreshAdoption(e, cfg, i, |DirectCommits(ev)|);
    AttemptStart(e, cfg, s0, ev, |DirectCommits(ev)|);
    DirectlyCompletes(e, cfg, s0, ev);
    s := Step(e, s0, AttemptEvent(ev, |DirectCommits(ev)|));
    ReachableIsGood(e, cfg, s);
    AgreementBetweenEvents(e, s.store);
    assert QueuedWrites([]) == [];
    WritesOne(i);
    assert Replay(e, EmptyReplica(e), [x]) == Replay(e, ApplyWrite(e, EmptyReplica(e), x), []);
    assert Base(e, View([], [i])) == EmptyReplica(e);
  }

  // ---------------------------------------------------------------------------
  // A rejection that does not repeat

  /** Content 1 creates a table; content 2 inserts into it. */
  function Tables(): Engine
  {
    Engine(0, (data: Data, c: Content) => if c == 1 then Some(1) else if data == 1 then Some(2) else None, c => c)
  }

  /** A batch inserts before it creates. Interrupted after both, it is retried, and the
      insertion that one uninterrupted delivery leaves rejected is accepted. */
  lemma {:induction false} RetriedEventCanDiverge()
    ensures exists e: Engine, cfg: Config, s: System, ev: Event, k: nat ::
      && Reachable(e, cfg, s) && Enabled(e, cfg, s, AttemptEvent(ev, k))
      && s.process.Up? && s.process.retrying == Some(ev)
      && ExtendsHistory(s.store, ev) && Continues(s.store, Done(s), ev)
      && !RejectionsRepeat(e, s.store, Done(s), ev) && StaleRejectionsHold(e, s.store, ev)
      && Diverged(e, Step(e, s, AttemptEvent(ev, k)))
  {
    var e, cfg := Tables(), Config(1, 1, 1);
    var insert, create := Write(20, 2), Write(10, 1);
    var i := Inscription(7, Some([insert, create]));
    var s := StopsAfterBoth(e, cfg, i, insert, create);
    ReachableIsGood(e, cfg, s);
    RetryDiverges(e, cfg, s, i, insert, create);
    DivergesOnlyUnsteady(e, cfg, s, AttemptEvent(Adoption(i), |DirectCommits(Adoption(i))|));
  }

  /** An attempt at an adoption that stops after `k` transactions. */
  lemma {:induction false} AdoptionStops(e: Engine, cfg: Config, s: System, i: Inscription, k: nat)
    requires AttemptReady(cfg, s, Adoption(i)) && EventCommits(s.store, Adoption(i)) == DirectCommits(Adoption(i))
    requires 0 < k < |DirectCommits(Adoption(i))|
    ensures var ev := Adoption(i); var s' := Step(e, s, AttemptEvent(ev, k));
      && s'.process == s.process.(retrying := Some(ev))
      && s'.store.queue == s.store.queue && s'.store.control.checkpoint == s.store.control.checkpoint
      && s'.store.control.rebuild == s.store.control.rebuild
      && PairOf(s'.store) == Effects(e, PairOf(s.store), DirectCommits(ev)[..k])
  {
    var ev := Adoption(i);
    InterruptedStep(e, s, ev, DirectCommits(ev)[..k]);
    DirectStopped(e, s.store, ev, k);
    EffectsOfRun(e, s.store, DirectCommits(ev)[..k]);
  }

  lemma {:induction false} FreshAdoption(e: Engine, cfg: Config, i: Inscription, k: nat)
    requires i.batch.Some? && i.batch.value != [] && k <= |DirectCommits(Adoption(i))|
    ensures Inv(cfg, Fresh(e)) && Enabled(e, cfg, Fresh(e), AttemptEvent(Adoption(i), k))
    ensures EventCommits(Fresh(e).store, Adoption(i)) == DirectCommits(Adoption(i))
    ensures Reachable(e, cfg, Step(e, Fresh(e), AttemptEvent(Adoption(i), k)))
  {
    var s0 := Fresh(e);
    FreshIsReachable(e, cfg);
    ReachableIsGood(e, cfg, s0);
    PlanWithoutQueue(s0.store, i);
    assert QueuedWrites([]) == [];
    AdoptionIsEnabled(e, cfg, s0, i, k);
    OneMore(e, cfg, s0, AttemptEvent(Adoption(i), k));
  }

  lemma {:induction false} StopsAfterBoth(e: Engine, cfg: Config, i: Inscription, insert: Write, create: Write)
    returns (s: System)
    requires i == Inscription(7, Some([insert, create]))
    ensures Reachable(e, cfg, s) && s.process == Up(false, false, Some(Adoption(i)), Idle)
    ensures Continues(s.store, Done(s), Adoption(i))
    ensures s.store.queue == [] && s.store.control.checkpoint == View([], []) && !s.store.control.rebuild
    ensures |DirectCommits(Adoption(i))| > 3
    ensures PairOf(s.store) == Effects(e, Pair(EmptyReplica(e), EmptyReplica(e)), DirectCommits(Adoption(i))[..3])
  {
    var ev, s0 := Adoption(i), Fresh(e);
    AdoptsTwo(ev, 7, insert, create);
    FreshAdoption(e, cfg, i, 3);
    s := Step(e, s0, AttemptEvent(ev, 3));
    AttemptStart(e, cfg, s0, ev, 3);
    SameEventContinues(e, cfg, s0, ev, 3);
    InterruptedStep(e, s0, ev, DirectCommits(ev)[..3]);
    AdoptionStops(e, cfg, s0, i, 3);
  }

  lemma {:induction false} RetryDiverges(e: Engine, cfg: Config, s: System, i: Inscription, insert: Write,
                                         create: Write)
    requires e == Tables() && insert == Write(20, 2) && create == Write(10, 1)
    requires i == Inscription(7, Some([insert, create]))
    requires Inv(cfg, s) && s.process == Up(false, false, Some(Adoption(i)), Idle)
    requires s.store.queue == [] && s.store.control.checkpoint == View([], []) && !s.store.control.rebuild
    requires |DirectCommits(Adoption(i))| > 3
    requires PairOf(s.store) == Effects(e, Pair(EmptyReplica(e), EmptyReplica(e)), DirectCommits(Adoption(i))[..3])
    ensures var a := AttemptEvent(Adoption(i), |DirectCommits(Adoption(i))|);
      Enabled(e, cfg, s, a) && Diverged(e, Step(e, s, a)) && ExtendsHistory(s.store, Adoption(i))
  {
    PlanWithoutQueue(s.store, i);
    assert QueuedWrites([]) == [];
    AdoptionIsEnabled(e, cfg, s, i, |DirectCommits(Adoption(i))|);
    AttemptStart(e, cfg, s, Adoption(i), |DirectCommits(Adoption(i))|);
    DirectlyCompletes(e, cfg, s, Adoption(i));
    InsertedOnRetry(e, Adoption(i), insert, create);
  }

  lemma {:induction false} InsertedOnRetry(e: Engine, ev: Event, insert: Write, create: Write)
    requires e == Tables() && insert == Write(20, 2) && create == Write(10, 1)
    requires ev == Adoption(Inscription(7, Some([insert, create])))
    ensures |DirectCommits(ev)| > 3
    ensures var p := Pair(EmptyReplica(e), EmptyReplica(e));
      Effects(e, Effects(e, p, DirectCommits(ev)[..3]), DirectCommits(ev)).live != Expected(e, ev.view, [])
  {
    var p, cs := Pair(EmptyReplica(e), EmptyReplica(e)), DirectCommits(ev);
    AdoptsTwo(ev, 7, insert, create);
    var mid := Effects(e, p, cs[..3]);
    EffectsNext(e, p, cs, 0);
    EffectsNext(e, p, cs, 1);
    EffectsNext(e, p, cs, 2);
    assert cs[..0] == [];
    assert mid.live == Replica(1, map[10 := 1]);
    EffectsNext(e, mid, cs, 0);
    assert 20 in Effects(e, mid, cs[..1]).live.applied;
    DirectKeepsMarks(e, mid, ev, 1);
    CreatedAfterwards(e, insert, create);
    WritesOne(ev.adopted[0]);
    assert Base(e, ev.view) == EmptyReplica(e) && QueuedWrites([]) == [];
  }

  lemma {:induction false} CreatedAfterwards(e: Engine, insert: Write, create: Write)
    requires e == Tables() && insert == Write(20, 2) && create == Write(10, 1)
    ensures Replay(e, EmptyReplica(e), [insert, create]) == Replica(1, map[10 := 1])
  {
    var r := EmptyReplica(e);
    assert [insert, create][1..] == [create] && [create][1..] == [];
    assert Replay(e, r, [insert, create]) == Replay(e, r, [create]);
    assert Replay(e, r, [create]) == Replay(e, Replica(1, map[10 := 1]), []);
  }

  lemma {:induction false} DirectKeepsMarks(e: Engine, p: Pair, ev: Event, k: nat)
    requires k <= |DirectCommits(ev)|
    ensures Keeps(Effects(e, p, DirectCommits(ev)[..k]).live, Effects(e, p, DirectCommits(ev)).live)
  {
    var cs := DirectCommits(ev);
    EffectsSplit(e, p, cs, k);
    DirectBodyIsBenign(ev, []);
    BenignIsNoInstall(DirectBody(ev), []);
    assert forall c :: c in cs[k..] ==> c in cs;
    EffectsKeep(e, Effects(e, p, cs[..k]), cs[k..]);
  }

  // ---------------------------------------------------------------------------
  // A stale rejection

  lemma {:induction false} RejectionsStay(e: Engine, st: Store, cs: seq<Commit>)
    ensures st.control.rejected <= Run(e, st, cs).control.rejected
    decreases |cs|
  {
    if cs != [] {
      RejectionsStay(e, Do(e, st, cs[0]), cs[1..]);
    }
  }

  /** The write is adopted and rejected. */
  lemma {:induction false} AdoptedAndRejected(e: Engine, cfg: Config, i: Inscription) returns (s: System)
    requires e == Tables() && i == Inscription(7, Some([Write(20, 2)]))
    ensures Reachable(e, cfg, s) && (7, Some(20)) in s.store.control.rejected
    ensures s.process == Up(true, false, None, Idle) && s.interrupted.None? && s.committed == []
    ensures s.store.queue == [] && s.store.control.checkpoint == View([], [i]) && !s.store.control.rebuild
  {
    var s0, ev, insert := Fresh(e), Adoption(i), Write(20, 2);
    FreshIsReachable(e, cfg);
    OneMore(e, cfg, s0, ReadyEvent);
    var s1 := Step(e, s0, ReadyEvent);
    var k, cs := |DirectCommits(ev)|, DirectCommits(ev);
    ReachableIsGood(e, cfg, s1);
    PlanWithoutQueue(s1.store, i);
    assert QueuedWrites([]) == [];
    AdoptionIsEnabled(e, cfg, s1, i, k);
    AttemptStart(e, cfg, s1, Adoption(i), |DirectCommits(Adoption(i))|);
    DirectlyCompletes(e, cfg, s1, Adoption(i));
    OneMore(e, cfg, s1, AttemptEvent(ev, k));
    s := Step(e, s1, AttemptEvent(ev, k));
    RecordedRejection(e, s1.store, i);
  }

  lemma {:induction false} RecordedRejection(e: Engine, st: Store, i: Inscription)
    requires e == Tables() && i == Inscription(7, Some([Write(20, 2)])) && st.live == EmptyReplica(e)
    ensures (7, Some(20)) in Run(e, st, DirectCommits(Adoption(i))).control.rejected
  {
    var cs := DirectCommits(Adoption(i));
    AdoptsOne(i, Write(20, 2));
    RunNext(e, st, cs, 0);
    RunNext(e, st, cs, 1);
    assert cs[..0] == [];
    assert (7, Some(20)) in Run(e, st, cs[..2]).control.rejected;
    assert cs == cs[..2] + cs[2..];
    RunConcat(e, st, cs[..2], cs[2..]);
    RejectionsStay(e, Run(e, st, cs[..2]), cs[2..]);
  }

  /** An event that removes the only inscription. */
  function Removal(i: Inscription): Event
  {
    Event([], [i], [], Some([]), true, View([], []))
  }

  /** Its branch is abandoned: LIVE is rebuilt without it, and the rejection stays. */
  lemma {:induction false} Abandoned(e: Engine, cfg: Config, i: Inscription) returns (s: System)
    requires e == Tables() && i == Inscription(7, Some([Write(20, 2)]))
    ensures Reachable(e, cfg, s) && (7, Some(20)) in s.store.control.rejected
    ensures s.process == Up(true, false, None, Idle) && s.interrupted.None? && s.committed == []
    ensures s.store.queue == [] && s.store.control.checkpoint == View([], []) && !s.store.control.rebuild
    ensures s.store.live == EmptyReplica(e)
  {
    var s0 := AdoptedAndRejected(e, cfg, i);
    var a := AttemptEvent(Removal(i), |EventCommits(s0.store, Removal(i))|);
    ReachableIsGood(e, cfg, s0);
    RemovalIsEnabled(e, cfg, s0, i);
    OneMore(e, cfg, s0, a);
    s := Step(e, s0, a);
    Removed(e, cfg, s0, i);
    ReachableIsGood(e, cfg, s);
    AgreementBetweenEvents(e, s.store);
    assert QueuedWrites([]) == [] && Expected(e, View([], []), []) == EmptyReplica(e);
  }

  lemma {:induction false} Removed(e: Engine, cfg: Config, s: System, i: Inscription)
    requires s.process.Up? && ApplicationPlan(s.store, Removal(i)).Rebuild?
    ensures var s' := Step(e, s, AttemptEvent(Removal(i), |EventCommits(s.store, Removal(i))|));
      && s'.process == Applied(s.process) && s'.interrupted.None? && s'.committed == s.committed
      && s.store.control.rejected <= s'.store.control.rejected
      && s'.store.queue == [] && s'.store.control.checkpoint == View([], []) && !s'.store.control.rebuild
  {
    var ev := Removal(i);
    var cs := EventCommits(s.store, ev);
    CompletedStep(e, s, ev, cs);
    RebuildCommitsInStages(s.store, ev);
    RebuildResult(e, s.store, ev);
    RejectionsStay(e, s.store, cs);
  }

  lemma {:induction false} RemovalIsEnabled(e: Engine, cfg: Config, s: System, i: Inscription)
    requires Inv(cfg, s) && s.committed == [] && s.process == Up(true, false, None, Idle) && s.interrupted.None?
    requires s.store.queue == [] && s.store.control.checkpoint == View([], [i]) && !s.store.control.rebuild
    ensures ApplicationPlan(s.store, Removal(i)).Rebuild?
    ensures var a := AttemptEvent(Removal(i), |EventCommits(s.store, Removal(i))|);
      Enabled(e, cfg, s, a) && Steady(e, s, a)
  {
    var k := s.store.control.tracking;
    assert QueuedWrites([]) == [];
    assert forall tx :: tx in k.locals ==> tx in k.order;
    assert k.order == [];
  }

  /** A write is queued on the rebuilt LIVE. */
  lemma {:induction false} QueuedOnTop(e: Engine, cfg: Config, i: Inscription) returns (s: System)
    requires e == Tables() && i == Inscription(7, Some([Write(20, 2)])) && cfg.maxPending > 0
    ensures Reachable(e, cfg, s) && (7, Some(20)) in s.store.control.rejected
    ensures s.process == Up(true, false, None, Idle) && s.interrupted.None?
    ensures s.store.queue == [Queued(Write(10, 1), 0)] && s.store.control.checkpoint == View([], [])
    ensures !s.store.control.rebuild
    ensures s.store.live == Replica(1, map[10 := 1])
  {
    var s0 := Abandoned(e, cfg, i);
    var q := Queued(Write(10, 1), 0);
    ReachableIsGood(e, cfg, s0);
    var k := s0.store.control.tracking;
    assert QueueBytes([]) == 0 && Ids([]) == [] && Writes([]) == [];
    assert k.order == [];
    assert AllHandled(k);
    OneMore(e, cfg, s0, Execute(q));
    s := Step(e, s0, Execute(q));
  }

  /** A rejection recorded on an abandoned branch makes the write count as processed, so
      when it is adopted again it runs on top of the queued write that it needs,
      although it comes before it in the history. */
  lemma {:induction false} StaleRejectionCanDiverge()
    ensures exists e: Engine, cfg: Config, s: System, ev: Event, k: nat ::
      && Reachable(e, cfg, s) && Enabled(e, cfg, s, AttemptEvent(ev, k))
      && ExtendsHistory(s.store, ev) && Continues(s.store, Done(s), ev)
      && RejectionsRepeat(e, s.store, Done(s), ev) && !StaleRejectionsHold(e, s.store, ev)
      && Diverged(e, Step(e, s, AttemptEvent(ev, k)))
  {
    var e, cfg, i := Tables(), Config(1, 1, 1), Inscription(7, Some([Write(20, 2)]));
    var s := QueuedOnTop(e, cfg, i);
    AdoptedAgain(e, cfg, s, i);
    AdoptedAgainDiverges(e, cfg, s, i);
    DivergesOnlyUnsteady(e, cfg, s, AttemptEvent(Adoption(i), |DirectCommits(Adoption(i))|));
  }

  lemma {:induction false} AdoptedAgain(e: Engine, cfg: Config, s: System, i: Inscription)
    requires i == Inscription(7, Some([Write(20, 2)])) && (7, Some(20)) in s.store.control.rejected
    requires s.process == Up(true, false, None, Idle) && s.interrupted.None? && !s.store.control.rebuild
    requires s.store.queue == [Queued(Write(10, 1), 0)] && s.store.control.checkpoint == View([], [])
    ensures var ev := Adoption(i);
      && EventCommits(s.store, ev) == DirectCommits(ev) && Enabled(e, cfg, s, AttemptEvent(ev, |DirectCommits(ev)|))
      && ExtendsHistory(s.store, ev) && Continues(s.store, Done(s), ev) && RejectionsRepeat(e, s.store, Done(s), ev)
  {
    CountsAsProcessed(s.store, i, Write(20, 2));
    assert QueuedWrites(s.store.queue) == [Write(10, 1)] + QueuedWrites([]);
    AdoptionIsEnabled(e, cfg, s, i, |DirectCommits(Adoption(i))|);
  }

  lemma {:induction false} AdoptedAgainDiverges(e: Engine, cfg: Config, s: System, i: Inscription)
    requires e == Tables() && Reachable(e, cfg, s) && i == Inscription(7, Some([Write(20, 2)]))
    requires Enabled(e, cfg, s, AttemptEvent(Adoption(i), |DirectCommits(Adoption(i))|))
    requires EventCommits(s.store, Adoption(i)) == DirectCommits(Adoption(i)) && !s.store.control.rebuild
    requires s.store.queue == [Queued(Write(10, 1), 0)] && s.store.live == Replica(1, map[10 := 1])
    ensures Diverged(e, Step(e, s, AttemptEvent(Adoption(i), |DirectCommits(Adoption(i))|)))
  {
    ReachableIsGood(e, cfg, s);
    AttemptStart(e, cfg, s, Adoption(i), |DirectCommits(Adoption(i))|);
    DirectlyCompletes(e, cfg, s, Adoption(i));
    InsertedOnTop(e, PairOf(s.store), i, s.store.queue);
  }

  lemma {:induction false} CountsAsProcessed(st: Store, i: Inscription, w: Write)
    requires i.batch == Some([w]) && (i.msg, Some(w.tx)) in st.control.rejected && !st.control.rebuild
    ensures ApplicationPlan(st, Adoption(i)).ApplyChanges?
    ensures EventCommits(st, Adoption(i)) == DirectCommits(Adoption(i))
  {
    assert [w][1..] == [] && [i][1..] == [];
    assert ObserveBatch(i.msg, [w]) == [Observed(i.msg, w)] + [];
    assert Observe([i]) == [Observed(i.msg, w)] + [];
    assert Adoption(i).adopted + Adoption(i).finalized == [i];
  }

  lemma {:induction false} InsertedOnTop(e: Engine, p: Pair, i: Inscription, queue: seq<Queued>)
    requires e == Tables() && i == Inscription(7, Some([Write(20, 2)]))
    requires p.live == Replica(1, map[10 := 1]) && queue == [Queued(Write(10, 1), 0)]
    ensures Effects(e, p, DirectCommits(Adoption(i))).live != Expected(e, View([], [i]), queue)
  {
    var ev, cs := Adoption(i), DirectCommits(Adoption(i));
    AdoptsOne(i, Write(20, 2));
    EffectsNext(e, p, cs, 0);
    assert cs[..0] == [];
    assert 20 in Effects(e, p, cs[..1]).live.applied;
    DirectKeepsMarks(e, p, ev, 1);
    CreatedAfterwards(e, Write(20, 2), Write(10, 1));
    WritesOne(i);
    assert queue[1..] == [];
    assert QueuedWrites(queue) == [Write(10, 1)] + QueuedWrites([]) == [Write(10, 1)];
    ExpectedIsOneReplay(e, View([], [i]), queue);
    assert Writes([]) + [Write(20, 2)] + [Write(10, 1)] == [Write(20, 2), Write(10, 1)];
    assert Expected(e, View([], [i]), queue) == Replica(1, map[10 := 1]);
  }
}
