/** Databases that an interrupted attempt left ahead of the saved position, when what it
    executed arrives again in smaller pieces: the pieces change nothing, and when the
    rest has arrived the databases agree with the saved position. */
module Healing {
  import opened SqlHistory
  import opened Commits
  import opened EventEffects
  import opened Convergence
  import opened Resumption
  import opened Redelivery

  /** LIB has executed `lib` above the finalized history and LIVE `live` above the saved
      history; no id repeats, and executing any of it again changes nothing. */
  ghost predicate Ahead(e: Engine, p: Pair, v: View, lib: seq<Write>, live: seq<Write>)
  {
    && p.lib == Replay(e, Base(e, v), lib) && p.live == Replay(e, Tip(e, v), live)
    && |lib| <= |Writes(v.history)| + |live| + 1 && DistinctIds(lib)
    && (forall w :: w in lib ==> Quiet(e, p.lib, w)) && (forall w :: w in live ==> Quiet(e, p.live, w))
  }

  /** The event carries no more than what has been executed. */
  ghost predicate IsPiece(v: View, ev: Event, lib: seq<Write>, live: seq<Write>)
  {
    Extends(v, ev) && Writes(ev.finalized) <= lib && NewWrites(v, ev) <= live
  }

  /** What the piece finalizes is below what LIVE has executed. */
  lemma {:induction false} FinalizedBelowLive(v: View, ev: Event, live: seq<Write>)
    requires Joins(v, ev) && NewWrites(v, ev) <= live
    ensures Writes(ev.finalized) <= Writes(v.history) + live
  {
    var fs, hs, ns, h := Writes(ev.finalized), Writes(v.history), NewWrites(v, ev), Overlap(v, ev);
    forall i | 0 <= i < |fs|
      ensures i < |hs + live| && fs[i] == (hs + live)[i]
    {
      if i < h {
        assert fs[..h][i] == hs[..h][i];
      } else {
        assert AllWrites(ev)[h..][i - h] == fs[i] == ns[i - h];
      }
    }
  }

  lemma {:induction false} PrefixMarksStay(e: Engine, r: Replica, xs: seq<Write>, ys: seq<Write>, tx: TxId)
    requires xs <= ys && tx in Replay(e, r, xs).applied
    ensures tx in Replay(e, r, ys).applied
  {
    assert ys == xs + ys[|xs|..];
    ReplayConcat(e, r, xs, ys[|xs|..]);
    MarkersPersist(e, Replay(e, r, xs), ys[|xs|..], tx);
  }

  /** Without repeated ids, a write of a prefix is marked by the prefix or not at all. */
  lemma {:induction false} MarkedByPrefix(e: Engine, r: Replica, xs: seq<Write>, ys: seq<Write>, i: nat)
    requires xs <= ys && DistinctIds(ys) && i < |xs| && xs[i].tx in Replay(e, r, ys).applied
    ensures xs[i].tx in Replay(e, r, xs).applied
  {
    assert ys[..|xs|] == xs;
    if xs[i].tx !in Replay(e, r, xs).applied {
      UnmarkedStays(e, r, ys, |xs|, i);
    }
  }

  /** A write of the piece that LIB has applied is applied on LIVE. */
  lemma {:induction false} MarkedOnLive(e: Engine, p: Pair, v: View, ev: Event, lib: seq<Write>, live: seq<Write>,
                                        i: nat)
    requires Ahead(e, p, v, lib, live) && IsPiece(v, ev, lib, live) && i < |Writes(ev.finalized)|
    requires Writes(ev.finalized)[i].tx in p.lib.applied
    ensures Writes(ev.finalized)[i].tx in p.live.applied
  {
    var fs, hs, base := Writes(ev.finalized), Writes(v.history), Base(e, v);
    MarkedByPrefix(e, base, fs, lib, i);
    ExtensionJoins(e, v, ev);
    FinalizedBelowLive(v, ev, live);
    PrefixMarksStay(e, base, fs, hs + live, fs[i].tx);
    ReplayConcat(e, base, hs, live);
  }

  lemma {:induction false} PieceIsSettled(e: Engine, p: Pair, v: View, ev: Event, lib: seq<Write>, live: seq<Write>)
    requires Ahead(e, p, v, lib, live) && IsPiece(v, ev, lib, live)
    ensures Settled(e, p, DirectExecutions(ev))
  {
    var xs := DirectExecutions(ev);
    forall c | c in xs
      ensures Effect(e, p, c) == p
    {
      var m :| 0 <= m < |xs| && xs[m] == c;
      ExecutionIsSettled(e, p, v, ev, lib, live, m);
    }
  }

  lemma {:induction false} ExecutionIsSettled(e: Engine, p: Pair, v: View, ev: Event, lib: seq<Write>, live: seq<Write>,
                                              m: nat)
    requires Ahead(e, p, v, lib, live) && IsPiece(v, ev, lib, live) && m < |DirectExecutions(ev)|
    ensures Effect(e, p, DirectExecutions(ev)[m]) == p
  {
    var f := |Writes(ev.finalized)|;
    ExecutionAt(ev, m);
    if m < 2 * f {
      var w := Writes(ev.finalized)[m / 2];
      assert AllWrites(ev)[m / 2] == w && w in lib;
      if IsApplied(p.lib, w) {
        MarkedOnLive(e, p, v, ev, lib, live, m / 2);
      }
    } else {
      var w := AllWrites(ev)[m - f];
      assert w == Writes(ev.adopted)[m - 2 * f] && w in NewWrites(v, ev) && w in live;
    }
  }

  lemma {:induction false} ReplayDropped(e: Engine, r: Replica, xs: seq<Write>, ys: seq<Write>)
    requires xs <= ys
    ensures Replay(e, r, ys) == Replay(e, Replay(e, r, xs), ys[|xs|..])
  {
    assert ys == xs + ys[|xs|..];
    ReplayConcat(e, r, xs, ys[|xs|..]);
  }

  lemma {:induction false} StillAhead(e: Engine, p: Pair, v: View, ev: Event, lib: seq<Write>, live: seq<Write>)
    requires Ahead(e, p, v, lib, live) && IsPiece(v, ev, lib, live)
    ensures Ahead(e, p, ev.view, lib[|Writes(ev.finalized)|..], live[|NewWrites(v, ev)|..])
  {
    ExtensionJoins(e, v, ev);
    ReplayDropped(e, Base(e, v), Writes(ev.finalized), lib);
    ReplayDropped(e, Tip(e, v), NewWrites(v, ev), live);
    PieceKeepsDistance(v, ev);
  }

  /** A piece changes nothing, and leaves the rest to come. */
  lemma {:induction false} PieceLeavesTheRest(e: Engine, p: Pair, v: View, ev: Event, lib: seq<Write>, live: seq<Write>)
    requires Ahead(e, p, v, lib, live) && IsPiece(v, ev, lib, live)
    ensures Effects(e, p, DirectCommits(ev)) == p
    ensures Ahead(e, p, ev.view, lib[|Writes(ev.finalized)|..], live[|NewWrites(v, ev)|..])
  {
    PieceIsSettled(e, p, v, ev, lib, live);
    SettledEffects(e, p, DirectExecutions(ev));
    DirectEffects(e, p, ev);
    StillAhead(e, p, v, ev, lib, live);
  }

  /** What leaves the distance between LIB and LIVE alone. */
  lemma {:induction false} PieceKeepsDistance(v: View, ev: Event)
    requires Extends(v, ev)
    ensures |Writes(ev.view.history)| + |Writes(ev.finalized)| == |Writes(v.history)| + |NewWrites(v, ev)|
  {
    if ev.finalized <= v.history && ev.view.history == v.history[|ev.finalized|..] + ev.adopted {
      assert v.history == ev.finalized + v.history[|ev.finalized|..];
      WritesConcat(ev.finalized, v.history[|ev.finalized|..]);
      WritesConcat(v.history[|ev.finalized|..], ev.adopted);
    } else {
      assert ev.finalized == v.history + ev.finalized[|v.history|..];
      WritesConcat(v.history, ev.finalized[|v.history|..]);
    }
  }

  // ---------------------------------------------------------------------------
  // Any number of pieces

  function Drop(ws: seq<Write>, n: nat): seq<Write>
  {
    if n <= |ws| then ws[n..] else []
  }

  ghost predicate ArePieces(v: View, evs: seq<Event>, lib: seq<Write>, live: seq<Write>)
    decreases |evs|
  {
    evs == [] ||
    (&& IsPiece(v, evs[0], lib, live)
     && ArePieces(evs[0].view, evs[1..], Drop(lib, |Writes(evs[0].finalized)|), Drop(live, |NewWrites(v, evs[0])|)))
  }

  /** What the events leave of what LIB has executed. */
  function LibLeft(evs: seq<Event>, lib: seq<Write>): seq<Write>
    decreases |evs|
  {
    if evs == [] then lib else LibLeft(evs[1..], Drop(lib, |Writes(evs[0].finalized)|))
  }

  /** What the events leave of what LIVE has executed. */
  function LiveLeft(v: View, evs: seq<Event>, live: seq<Write>): seq<Write>
    decreases |evs|
  {
    if evs == [] then live else LiveLeft(evs[0].view, evs[1..], Drop(live, |NewWrites(v, evs[0])|))
  }

  function Deliver(e: Engine, p: Pair, evs: seq<Event>): Pair
    decreases |evs|
  {
    if evs == [] then p else Deliver(e, Effects(e, p, DirectCommits(evs[0])), evs[1..])
  }

  function ViewAfter(v: View, evs: seq<Event>): View
    decreases |evs|
  {
    if evs == [] then v else ViewAfter(evs[0].view, evs[1..])
  }

  /** The pieces change nothing, and leave the rest to come. */
  lemma {:induction false} PiecesLeaveTheRest(e: Engine, p: Pair, v: View, evs: seq<Event>, lib: seq<Write>,
                                              live: seq<Write>)
    requires Ahead(e, p, v, lib, live) && ArePieces(v, evs, lib, live)
    ensures Deliver(e, p, evs) == p && Ahead(e, p, ViewAfter(v, evs), LibLeft(evs, lib), LiveLeft(v, evs, live))
    decreases |evs|
  {
    if evs != [] {
      var ev := evs[0];
      PieceLeavesTheRest(e, p, v, ev, lib, live);
      PiecesLeaveTheRest(e, p, ev.view, evs[1..], Drop(lib, |Writes(ev.finalized)|), Drop(live, |NewWrites(v, ev)|));
    }
  }

  lemma {:induction false} DeliverOneMore(e: Engine, p: Pair, evs: seq<Event>, ev: Event)
    ensures Deliver(e, p, evs + [ev]) == Effects(e, Deliver(e, p, evs), DirectCommits(ev))
    decreases |evs|
  {
    if evs == [] {
      assert evs + [ev] == [ev] && [ev][1..] == [];
      assert Deliver(e, p, [ev]) == Deliver(e, Effects(e, p, DirectCommits(ev)), []);
    } else {
      assert (evs + [ev])[1..] == evs[1..] + [ev];
      DeliverOneMore(e, Effects(e, p, DirectCommits(evs[0])), evs[1..], ev);
    }
  }

  /** An event that carries the rest, and possibly more, brings agreement. */
  lemma {:induction false} RestBringsAgreement(e: Engine, p: Pair, v: View, ev: Event, lib: seq<Write>,
                                               live: seq<Write>)
    requires Ahead(e, p, v, lib, live) && Extends(v, ev) && lib <= Writes(ev.finalized) && live <= NewWrites(v, ev)
    ensures InAgreement(e, Effects(e, p, DirectCommits(ev)), ev.view, [])
  {
    var fs, ns := Writes(ev.finalized), NewWrites(v, ev);
    assert QueuedWrites([]) == [] && lib == fs[..|lib|] && live == ns[..|live|];
    assert Replay(e, p.live, []) == p.live;
    forall i: nat | i < |lib| ensures LibRepeats(e, ev, p, i) {
      assert fs[i] in lib;
    }
    forall j: nat | j < |live| ensures LiveRepeats(e, v, ev, p, j) {
      assert ns[j] in live;
    }
    DirectApplicationAgrees(e, p, v, [], ev, |lib|, |live|);
  }

  /** Whatever an interrupted attempt executed ahead of the saved position: delivered
      again in any number of pieces, it changes nothing, and the event that brings the
      rest, and possibly more, brings agreement. */
  lemma {:induction false} PiecesHeal(e: Engine, p: Pair, v: View, evs: seq<Event>, ev: Event, lib: seq<Write>,
                                      live: seq<Write>)
    requires Ahead(e, p, v, lib, live) && ArePieces(v, evs, lib, live) && Extends(ViewAfter(v, evs), ev)
    requires LibLeft(evs, lib) <= Writes(ev.finalized)
    requires LiveLeft(v, evs, live) <= NewWrites(ViewAfter(v, evs), ev)
    ensures Deliver(e, p, evs) == p && InAgreement(e, Deliver(e, p, evs + [ev]), ev.view, [])
  {
    PiecesLeaveTheRest(e, p, v, evs, lib, live);
    DeliverOneMore(e, p, evs, ev);
    RestBringsAgreement(e, p, ViewAfter(v, evs), ev, LibLeft(evs, lib), LiveLeft(v, evs, live));
  }

  /** Pieces that bring everything bring agreement with the position they reach. */
  lemma {:induction false} PiecesHealByThemselves(e: Engine, p: Pair, v: View, evs: seq<Event>, lib: seq<Write>,
                                                  live: seq<Write>)
    requires Ahead(e, p, v, lib, live) && ArePieces(v, evs, lib, live)
    ensures LibLeft(evs, lib) == [] && LiveLeft(v, evs, live) == [] ==> InAgreement(e, p, ViewAfter(v, evs), [])
  {
    PiecesLeaveTheRest(e, p, v, evs, lib, live);
    assert QueuedWrites([]) == [];
  }
}
