/** What must have happened before a participant writes or publishes. */
module Guards {
  import opened Wrappers
  import opened SqlHistory
  import opened WriteStatuses
  import opened Commits
  import opened Participant
  import opened RunTheorems
  import opened OpenDisplacements

  predicate NoCrash(actions: seq<Action>, r: nat, n: nat)
  {
    forall m :: r <= m < n && m < |actions| ==> !actions[m].Crash?
  }

  /** The sequencer became ready at `r`, and the process has lived since. */
  predicate SeenReady(actions: seq<Action>, r: nat, n: nat)
  {
    r < n <= |actions| && actions[r].ReadyEvent? && NoCrash(actions, r, n)
  }

  /** An attempt that commits everything. */
  ghost predicate Completes(s: System, a: Action)
  {
    a.AttemptEvent? && a.k == |EventCommits(s.store, a.event)|
  }

  /** The sequencer became ready at `r`, an event was applied after that at `a`, and the
      process has lived since. */
  ghost predicate ReadySince(states: seq<System>, actions: seq<Action>, r: nat, a: nat, n: nat)
    requires |states| == |actions| + 1
  {
    SeenReady(actions, r, n) && r < a < n && Completes(states[a], actions[a])
  }

  ghost predicate HasBeenReady(states: seq<System>, actions: seq<Action>, n: nat)
    requires |states| == |actions| + 1
  {
    exists r: nat, a: nat :: ReadySince(states, actions, r, a, n)
  }

  ghost predicate HasSeenReady(actions: seq<Action>, n: nat)
  {
    exists r: nat :: SeenReady(actions, r, n)
  }

  /** What one step does to the process. */
  lemma {:induction false} ProcessAfter(e: Engine, s: System, a: Action)
    ensures var p, p' := s.process, Step(e, s, a).process;
      && (p'.Up? && p'.readyCheckpointPending ==> a.ReadyEvent? || (!a.Crash? && p.Up? && p.readyCheckpointPending))
      && (p'.Up? && p'.ready ==>
            !a.Crash? && p.Up? && (p.ready || (p.readyCheckpointPending && Completes(s, a))))
  {
  }

  lemma {:induction false} SeenReadyStays(actions: seq<Action>, n: nat)
    requires HasSeenReady(actions, n) && n < |actions| && !actions[n].Crash?
    ensures HasSeenReady(actions, n + 1)
  {
    var r: nat :| SeenReady(actions, r, n);
    assert SeenReady(actions, r, n + 1);
  }

  lemma {:induction false} ReadySinceStays(states: seq<System>, actions: seq<Action>, r: nat, a: nat, n: nat)
    requires |states| == |actions| + 1 && n < |actions| && ReadySince(states, actions, r, a, n) && !actions[n].Crash?
    ensures ReadySince(states, actions, r, a, n + 1)
  {
  }

  lemma {:induction false} ReadyStays(states: seq<System>, actions: seq<Action>, n: nat)
    requires |states| == |actions| + 1 && HasBeenReady(states, actions, n) && n < |actions| && !actions[n].Crash?
    ensures HasBeenReady(states, actions, n + 1)
  {
    var r: nat, a: nat :| ReadySince(states, actions, r, a, n);
    ReadySinceStays(states, actions, r, a, n);
  }

  /** A process is ready only after the event whose checkpoint was queued behind the
      ready event has been applied. */
  lemma {:induction false} ReadyOnlyAfterCheckpoint(e: Engine, cfg: Config, states: seq<System>, actions: seq<Action>,
                                                    n: nat)
    requires IsRun(e, cfg, states, actions) && n < |states|
    ensures states[n].process.Up? && states[n].process.readyCheckpointPending ==> HasSeenReady(actions, n)
    ensures states[n].process.Up? && states[n].process.ready ==> HasBeenReady(states, actions, n)
  {
    if n > 0 {
      var m := n - 1;
      var p, a := states[m].process, actions[m];
      ReadyOnlyAfterCheckpoint(e, cfg, states, actions, m);
      ProcessAfter(e, states[m], a);
      if p.Up? && p.readyCheckpointPending && !a.Crash? {
        SeenReadyStays(actions, m);
        if Completes(states[m], a) {
          var r: nat :| SeenReady(actions, r, m);
          assert ReadySince(states, actions, r, m, n);
        }
      }
      if p.Up? && p.ready && !a.Crash? {
        ReadyStays(states, actions, m);
      }
      if a.ReadyEvent? {
        assert SeenReady(actions, m, n);
      }
    }
  }

  /** Writing, retrying and publishing wait for readiness, for the end of a rebuild, of a
      failed event and of an earlier publication. */
  lemma {:induction false} WritesWait(e: Engine, cfg: Config, states: seq<System>, actions: seq<Action>, n: nat)
    requires IsRun(e, cfg, states, actions) && n < |actions|
    requires actions[n].Execute? || actions[n].RetryDisplacement? || actions[n].AcceptPublication?
    ensures HasBeenReady(states, actions, n) && !states[n].store.control.rebuild && states[n].process.Up?
    ensures states[n].process.retrying.None? && states[n].process.publish.Idle?
    ensures !states[n].process.readyCheckpointPending
    ensures actions[n].AcceptPublication? ==>
      1 <= actions[n].n <= |states[n].store.queue| && actions[n].n <= cfg.maxBatch
  {
    ReadyOnlyAfterCheckpoint(e, cfg, states, actions, n);
    assert Enabled(e, cfg, states[n], actions[n]);
  }

  /** A new write waits until no displacement is open; a retry executes the statements of
      an open displacement. */
  lemma {:induction false} DisplacementsComeFirst(e: Engine, cfg: Config, states: seq<System>, actions: seq<Action>,
                                                  n: nat)
    requires IsRun(e, cfg, states, actions) && n < |actions|
    ensures actions[n].Execute? ==> forall tx :: !Listed(states[n], tx)
    ensures actions[n].RetryDisplacement? ==>
      var RetryDisplacement(tx, id, q, marked) := actions[n];
      && Listed(states[n], tx) && DisplacedAs(states[n], tx, id)
      && e.statements(q.write.content)
           == e.statements(states[n].store.control.tracking.row[tx].displacement.value.payload.content)
  {
    assert Enabled(e, cfg, states[n], actions[n]);
    RunStepTracks(e, cfg, states, actions, n);
    forall tx ensures Listed(states[n], tx) <==> IsUnhandled(states[n].store.control.tracking, tx) {
      ListedExactlyWhenUnhandled(states[n], tx);
    }
  }
}
