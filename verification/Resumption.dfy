/** A direct application from any point that an interrupted attempt may have left,
    at the same saved position, of the same event or of another one. */
module Resumption {
  import opened Wrappers
  import opened SqlHistory
  import opened Commits
  import opened EventEffects
  import opened Convergence

  // ---------------------------------------------------------------------------
  // The transactions that execute writes

  function Executions(cs: seq<Commit>): seq<Commit>
  {
    if cs == [] then [] else (if ControlOnly(cs[0]) then [] else [cs[0]]) + Executions(cs[1..])
  }

  lemma {:induction false} EffectsOfExecutions(e: Engine, p: Pair, cs: seq<Commit>)
    ensures Effects(e, p, cs) == Effects(e, p, Executions(cs))
    decreases |cs|
  {
    if cs != [] {
      EffectsOfExecutions(e, Effect(e, p, cs[0]), cs[1..]);
      if ControlOnly(cs[0]) {
        assert Executions(cs) == Executions(cs[1..]);
      } else {
        assert Executions(cs)[1..] == Executions(cs[1..]);
      }
    }
  }

  lemma {:induction false} ExecutionsConcat(xs: seq<Commit>, ys: seq<Commit>)
    ensures Executions(xs + ys) == Executions(xs) + Executions(ys)
  {
    if xs == [] {
      assert xs + ys == ys;
    } else {
      assert (xs + ys)[1..] == xs[1..] + ys;
      ExecutionsConcat(xs[1..], ys);
    }
  }

  lemma {:induction false} ExecutionsNone(cs: seq<Commit>)
    requires forall c :: c in cs ==> ControlOnly(c)
    ensures Executions(cs) == []
  {
    if cs != [] {
      assert cs[0] in cs;
      ExecutionsNone(cs[1..]);
    }
  }

  lemma {:induction false} ExecutionsPrefix(cs: seq<Commit>, k: nat)
    requires k <= |cs|
    ensures Executions(cs[..k]) <= Executions(cs)
  {
    assert cs == cs[..k] + cs[k..];
    ExecutionsConcat(cs[..k], cs[k..]);
  }

  /** What one write executes. */
  function Executing(t: Target, w: Write): seq<Commit>
  {
    match t
    case LibAndLive => [FinalizeLib(w), FinalizeLive(w)]
    case LiveOnly => [AdoptLive(w)]
    case LibOnly => [RebuildLib(w)]
  }

  function ExecutingAll(t: Target, ws: seq<Write>): seq<Commit>
  {
    if ws == [] then [] else Executing(t, ws[0]) + ExecutingAll(t, ws[1..])
  }

  lemma {:induction false} ExecutingConcat(t: Target, xs: seq<Write>, ys: seq<Write>)
    ensures ExecutingAll(t, xs + ys) == ExecutingAll(t, xs) + ExecutingAll(t, ys)
  {
    if xs == [] {
      assert xs + ys == ys;
    } else {
      assert (xs + ys)[1..] == xs[1..] + ys;
      ExecutingConcat(t, xs[1..], ys);
    }
  }

  lemma {:induction false} ExecutionsOfWrite(t: Target, msg: MsgId, w: Write)
    ensures Executions(WriteCommits(t, msg, w)) == Executing(t, w)
  {
    var cs, n := WriteCommits(t, msg, w), |Executing(t, w)|;
    assert cs == Executing(t, w) + cs[n..];
    ExecutionsConcat(Executing(t, w), cs[n..]);
    ExecutionsNone(cs[n..]);
    if t == LibAndLive {
      assert Executing(t, w)[1..] == [FinalizeLive(w)] && [FinalizeLive(w)][1..] == [];
    } else {
      assert Executing(t, w)[1..] == [];
    }
  }

  lemma {:induction false} ExecutionsOfBatch(t: Target, msg: MsgId, ws: seq<Write>)
    ensures Executions(BatchCommits(t, msg, ws)) == ExecutingAll(t, ws)
  {
    if ws != [] {
      ExecutionsOfWrite(t, msg, ws[0]);
      ExecutionsConcat(WriteCommits(t, msg, ws[0]), BatchCommits(t, msg, ws[1..]));
      ExecutionsOfBatch(t, msg, ws[1..]);
    }
  }

  lemma {:induction false} ExecutionsOfHistory(t: Target, history: seq<Inscription>)
    ensures Executions(ApplyCommits(t, history)) == ExecutingAll(t, Writes(history))
  {
    if history != [] {
      var i := history[0];
      ExecutionsConcat(InscriptionCommits(t, i), ApplyCommits(t, history[1..]));
      ExecutionsOfHistory(t, history[1..]);
      ExecutingConcat(t, BatchWrites(i), Writes(history[1..]));
      if i.batch.Some? {
        ExecutionsOfBatch(t, i.msg, i.batch.value);
      } else {
        ExecutionsNone(InscriptionCommits(t, i));
      }
    }
  }

  /** What a direct application executes: each finalized write on LIB and then on
      LIVE, then each adopted write on LIVE. */
  function DirectExecutions(ev: Event): seq<Commit>
  {
    ExecutingAll(LibAndLive, Writes(ev.finalized)) + ExecutingAll(LiveOnly, Writes(ev.adopted))
  }

  lemma {:induction false} ExecutionsOfDirect(ev: Event)
    ensures Executions(DirectCommits(ev)) == DirectExecutions(ev)
  {
    var fs, as_ := ApplyCommits(LibAndLive, ev.finalized), ApplyCommits(LiveOnly, ev.adopted);
    var rest := StatusCommits(ev, ev.adopted);
    ExecutionsConcat(fs + as_ + rest, [SaveCheckpoint(ev.view)]);
    ExecutionsConcat(fs + as_, rest);
    ExecutionsConcat(fs, as_);
    ExecutionsOfHistory(LibAndLive, ev.finalized);
    ExecutionsOfHistory(LiveOnly, ev.adopted);
    StatusCommitsAreControl(ev, ev.adopted);
    ExecutionsNone(rest);
    ExecutionsNone([SaveCheckpoint(ev.view)]);
  }

  /** The finalized and the adopted writes, in the order LIVE executes them. */
  function AllWrites(ev: Event): seq<Write>
  {
    Writes(ev.finalized) + Writes(ev.adopted)
  }

  /** How many writes LIB and LIVE have executed after `m` executions. */
  function LibCount(f: nat, m: nat): nat
  {
    if m < 2 * f then (m + 1) / 2 else f
  }

  function LiveCount(f: nat, m: nat): nat
  {
    if m < 2 * f then m / 2 else m - f
  }

  lemma {:induction false} FinalizingAt(ws: seq<Write>, i: nat)
    requires i < |ws|
    ensures |ExecutingAll(LibAndLive, ws)| == 2 * |ws|
    ensures ExecutingAll(LibAndLive, ws)[2 * i] == FinalizeLib(ws[i])
    ensures ExecutingAll(LibAndLive, ws)[2 * i + 1] == FinalizeLive(ws[i])
  {
    if |ws| > 1 {
      FinalizingAt(ws[1..], if i == 0 then 0 else i - 1);
    }
  }

  lemma {:induction false} AdoptingAt(ws: seq<Write>)
    ensures |ExecutingAll(LiveOnly, ws)| == |ws|
    ensures forall i :: 0 <= i < |ws| ==> ExecutingAll(LiveOnly, ws)[i] == AdoptLive(ws[i])
  {
    if ws != [] {
      AdoptingAt(ws[1..]);
    }
  }

  /** The execution after the first `m`. */
  lemma {:induction false} ExecutionAt(ev: Event, m: nat)
    ensures |DirectExecutions(ev)| == |Writes(ev.finalized)| + |AllWrites(ev)|
    ensures m < |DirectExecutions(ev)| ==>
      var f := |Writes(ev.finalized)|;
      DirectExecutions(ev)[m] ==
        if m < 2 * f then
          if m % 2 == 0 then FinalizeLib(AllWrites(ev)[m / 2]) else FinalizeLive(AllWrites(ev)[m / 2])
        else AdoptLive(AllWrites(ev)[m - f])
  {
    var fs := Writes(ev.finalized);
    AdoptingAt(Writes(ev.adopted));
    if fs != [] {
      FinalizingAt(fs, if m < 2 * |fs| then m / 2 else 0);
    }
  }

  // ---------------------------------------------------------------------------
  // The event's writes against the saved position

  /** The number of finalized writes that the surviving history already holds. */
  function Overlap(v: View, ev: Event): nat
  {
    var f, h := |Writes(ev.finalized)|, |Writes(v.history)|;
    if f <= h then f else h
  }

  /** The finalized writes start with the surviving history or are a part of it; the
      new writes are the others. */
  ghost predicate Joins(v: View, ev: Event)
  {
    var fs, hs, h := Writes(ev.finalized), Writes(v.history), Overlap(v, ev);
    && fs[..h] == hs[..h]
    && NewWrites(v, ev) == AllWrites(ev)[h..]
  }

  lemma {:induction false} ExtensionJoins(e: Engine, v: View, ev: Event)
    requires Extends(v, ev)
    ensures Joins(v, ev)
    ensures Base(e, ev.view) == Replay(e, Base(e, v), Writes(ev.finalized))
    ensures Tip(e, ev.view) == Replay(e, Tip(e, v), NewWrites(v, ev))
  {
    BaseAdvances(e, v, ev);
    if ev.finalized <= v.history && ev.view.history == v.history[|ev.finalized|..] + ev.adopted {
      ExtensionWithin(e, v, ev);
    } else {
      ExtensionBeyond(e, v, ev);
    }
  }

  lemma {:induction false} ExtensionWithin(e: Engine, v: View, ev: Event)
    requires Base(e, ev.view) == Replay(e, Base(e, v), Writes(ev.finalized))
    requires ev.finalized <= v.history && ev.view.history == v.history[|ev.finalized|..] + ev.adopted
    ensures Joins(v, ev) && Tip(e, ev.view) == Replay(e, Tip(e, v), NewWrites(v, ev))
  {
    var fs, as_, survivors := Writes(ev.finalized), Writes(ev.adopted), Writes(v.history[|ev.finalized|..]);
    SurvivingWrites(v, ev);
    assert HistoryBeyond(ev.finalized, |v.history|) == [];
    assert NewWrites(v, ev) == [] + as_ == as_;
    assert AllWrites(ev)[|fs|..] == as_;
    assert (fs + survivors)[..|fs|] == fs;
    ReplayConcat(e, Base(e, v), fs, survivors);
    ReplayConcat(e, Base(e, ev.view), survivors, as_);
  }

  lemma {:induction false} ExtensionBeyond(e: Engine, v: View, ev: Event)
    requires Base(e, ev.view) == Replay(e, Base(e, v), Writes(ev.finalized))
    requires v.history <= ev.finalized && ev.view.history == ev.adopted
    ensures Joins(v, ev) && Tip(e, ev.view) == Replay(e, Tip(e, v), NewWrites(v, ev))
  {
    var more := HistoryBeyond(ev.finalized, |v.history|);
    var hs, ms, as_ := Writes(v.history), Writes(more), Writes(ev.adopted);
    assert ev.finalized == v.history + more;
    WritesConcat(v.history, more);
    SplitBeyond(hs, ms, as_);
    ReplayConcat(e, Base(e, v), hs, ms);
    ReplayConcat(e, Tip(e, v), ms, as_);
  }

  lemma {:induction false} SplitBeyond(hs: seq<Write>, ms: seq<Write>, as_: seq<Write>)
    ensures (hs + ms + as_)[|hs|..] == ms + as_ && (hs + ms)[..|hs|] == hs == hs[..|hs|]
  {
  }

  lemma {:induction false} SurvivingWrites(v: View, ev: Event)
    requires ev.finalized <= v.history && ev.view.history == v.history[|ev.finalized|..] + ev.adopted
    ensures Writes(v.history) == Writes(ev.finalized) + Writes(v.history[|ev.finalized|..])
    ensures Writes(ev.view.history) == Writes(v.history[|ev.finalized|..]) + Writes(ev.adopted)
  {
    var survivors := v.history[|ev.finalized|..];
    assert v.history == ev.finalized + survivors;
    WritesConcat(ev.finalized, survivors);
    WritesConcat(survivors, ev.adopted);
  }

  // ---------------------------------------------------------------------------
  // Progress

  /** LIB has executed the first `a` finalized writes above the saved base, and LIVE
      the first `b` new writes above the saved history, with the queue on top. LIB
      is at most one write ahead of LIVE. With writes queued, no new write changes
      anything, so LIVE counts as having executed them all. */
  ghost predicate At(e: Engine, v: View, ev: Event, q: seq<Write>, p: Pair, a: nat, b: nat)
  {
    var fs, ns := Writes(ev.finalized), NewWrites(v, ev);
    && a <= |fs| && b <= |ns| && a <= Overlap(v, ev) + b + 1
    && (q != [] ==> b == |ns|)
    && p.lib == Replay(e, Base(e, v), fs[..a])
    && p.live == Replay(e, Replay(e, Tip(e, v), ns[..b]), q)
  }

  lemma {:induction false} ExecutedBoth(v: View, ev: Event, a: nat, b: nat)
    requires Joins(v, ev) && a <= |Writes(ev.finalized)| && b <= |NewWrites(v, ev)| && a <= Overlap(v, ev) + b
    ensures var executed := Writes(v.history) + NewWrites(v, ev)[..b];
      a <= |executed| && Writes(ev.finalized)[..a] == executed[..a]
    ensures var executed := Writes(v.history) + NewWrites(v, ev)[..b];
      a < |Writes(ev.finalized)| && a < |executed| ==> executed[a] == Writes(ev.finalized)[a]
  {
    var fs, hs, ns, h := Writes(ev.finalized), Writes(v.history), NewWrites(v, ev), Overlap(v, ev);
    var executed := hs + ns[..b];
    forall i | 0 <= i < |fs| && i < |executed|
      ensures fs[i] == executed[i]
    {
      if i < h {
        assert fs[..h][i] == hs[..h][i];
      } else {
        assert AllWrites(ev)[h..][i - h] == fs[i];
      }
    }
  }

  /** What LIB executed is below what LIVE executed. */
  lemma {:induction false} LibBelowLive(e: Engine, v: View, ev: Event, q: seq<Write>, p: Pair, a: nat, b: nat)
    returns (rest: seq<Write>)
    requires Joins(v, ev) && At(e, v, ev, q, p, a, b) && a <= Overlap(v, ev) + b
    ensures p.live == Replay(e, p.lib, rest)
    ensures rest == (Writes(v.history) + NewWrites(v, ev)[..b])[a..] + q
    ensures Writes(ev.finalized)[..a] == (Writes(v.history) + NewWrites(v, ev)[..b])[..a]
  {
    ExecutedBoth(v, ev, a, b);
    rest := (Writes(v.history) + NewWrites(v, ev)[..b])[a..] + q;
    ReplayCut(e, Base(e, v), Writes(v.history), NewWrites(v, ev)[..b], q, a);
  }

  /** Three replays in a row, cut within the first two. */
  lemma {:induction false} ReplayCut(e: Engine, r: Replica, xs: seq<Write>, ys: seq<Write>, zs: seq<Write>, n: nat)
    requires n <= |xs + ys|
    ensures Replay(e, Replay(e, Replay(e, r, xs), ys), zs)
         == Replay(e, Replay(e, r, (xs + ys)[..n]), (xs + ys)[n..] + zs)
  {
    var all := xs + ys;
    ReplayConcat(e, r, xs, ys);
    assert all == all[..n] + all[n..];
    ReplayConcat(e, r, all[..n], all[n..]);
    ReplayConcat(e, Replay(e, r, all[..n]), all[n..], zs);
  }

  lemma {:induction false} LibMarkersOnLive(e: Engine, v: View, ev: Event, q: seq<Write>, p: Pair, a: nat, b: nat,
                                            w: Write)
    requires Joins(v, ev) && At(e, v, ev, q, p, a, b) && a <= Overlap(v, ev) + b && w.tx in p.lib.applied
    ensures w.tx in p.live.applied
  {
    var rest := LibBelowLive(e, v, ev, q, p, a, b);
    MarkersPersist(e, p.lib, rest, w.tx);
  }

  /** LIB took a write that LIVE missed. */
  lemma {:induction false} LibOneAhead(e: Engine, v: View, ev: Event, p: Pair, a: nat, b: nat)
    requires Joins(v, ev) && At(e, v, ev, [], p, a, b) && a == Overlap(v, ev) + b + 1
    ensures b < |NewWrites(v, ev)| && NewWrites(v, ev)[b] == Writes(ev.finalized)[a - 1]
    ensures p.lib == ApplyWrite(e, p.live, NewWrites(v, ev)[b])
    ensures p.lib == Replay(e, Tip(e, v), NewWrites(v, ev)[..b + 1])
  {
    var hs, ns := Writes(v.history), NewWrites(v, ev);
    ExecutedBoth(v, ev, a, b + 1);
    assert Writes(ev.finalized)[..a] == hs + ns[..b + 1];
    assert AllWrites(ev)[|hs|..][b] == Writes(ev.finalized)[a - 1];
    ReplayConcat(e, Base(e, v), hs, ns[..b + 1]);
    assert ns[..b + 1] == ns[..b] + [ns[b]];
    ReplayOne(e, Tip(e, v), ns[..b], ns[b]);
  }

  /** The next finalized write, on LIB. */
  lemma {:induction false} LibAdvances(e: Engine, v: View, ev: Event, q: seq<Write>, p: Pair, a: nat, b: nat)
    requires Joins(v, ev) && At(e, v, ev, q, p, a, b) && a < |Writes(ev.finalized)| && a <= Overlap(v, ev) + b
    ensures At(e, v, ev, q, Effect(e, p, FinalizeLib(Writes(ev.finalized)[a])), a + 1, b)
  {
    var fs, w := Writes(ev.finalized), Writes(ev.finalized)[a];
    assert fs[..a + 1] == fs[..a] + [w];
    ReplayOne(e, Base(e, v), fs[..a], w);
    if Mismatched(p.live, w) {
      NotMismatched(e, v, ev, q, p, a, b);
    }
  }

  /** LIVE knows the next finalized write under another content only if LIB would
      not take it either. */
  lemma {:induction false} NotMismatched(e: Engine, v: View, ev: Event, q: seq<Write>, p: Pair, a: nat, b: nat)
    requires Joins(v, ev) && At(e, v, ev, q, p, a, b) && a < |Writes(ev.finalized)| && a <= Overlap(v, ev) + b
    requires Mismatched(p.live, Writes(ev.finalized)[a])
    ensures ApplyWrite(e, p.lib, Writes(ev.finalized)[a]) == p.lib
  {
    var executed := Writes(v.history) + NewWrites(v, ev)[..b];
    ExecutedBoth(v, ev, a, b);
    var rest := LibBelowLive(e, v, ev, q, p, a, b);
    if a < |executed| {
      assert rest[0] == executed[a];
      AcceptedStays(e, p.lib, Writes(ev.finalized)[a], rest);
    } else {
      NothingAbove(v, ev, a, b);
      assert rest == [];
    }
  }

  lemma {:induction false} NothingAbove(v: View, ev: Event, a: nat, b: nat)
    requires Joins(v, ev) && a < |Writes(ev.finalized)| && b <= |NewWrites(v, ev)| && a <= Overlap(v, ev) + b
    requires a >= |Writes(v.history) + NewWrites(v, ev)[..b]|
    ensures a == |Writes(v.history) + NewWrites(v, ev)[..b]| && b < |NewWrites(v, ev)|
  {
  }

  lemma {:induction false} AcceptedStays(e: Engine, r: Replica, w: Write, rest: seq<Write>)
    requires rest != [] && rest[0] == w && Mismatched(Replay(e, r, rest), w)
    ensures ApplyWrite(e, r, w) == r
  {
    if ApplyWrite(e, r, w) != r {
      MarkersPersist(e, ApplyWrite(e, r, w), rest[1..], w.tx);
    }
  }

  /** A finalized write that LIB has executed, on LIVE. It is executed again only when
      LIVE misses exactly this write. */
  lemma {:induction false} LiveAdvances(e: Engine, v: View, ev: Event, q: seq<Write>, p: Pair, a: nat, b: nat, i: nat)
    returns (b': nat)
    requires Joins(v, ev) && At(e, v, ev, q, p, a, b) && i < a
    ensures At(e, v, ev, q, Effect(e, p, FinalizeLive(Writes(ev.finalized)[i])), a, b')
    ensures b' == b || (b' == b + 1 && a == Overlap(v, ev) + b + 1)
    ensures i == Overlap(v, ev) + b ==> b' == b + 1
    ensures b' == b ==> Effect(e, p, FinalizeLive(Writes(ev.finalized)[i])) == p
  {
    var w := Writes(ev.finalized)[i];
    if a <= Overlap(v, ev) + b {
      b' := b;
      if IsApplied(p.lib, w) {
        LibMarkersOnLive(e, v, ev, q, p, a, b, w);
      }
    } else {
      QueueIsEmpty(v, ev, q, a, b);
      b' := LiveCatchesUp(e, v, ev, p, a, b, i);
    }
  }

  lemma {:induction false} QueueIsEmpty(v: View, ev: Event, q: seq<Write>, a: nat, b: nat)
    requires Joins(v, ev) && a <= |Writes(ev.finalized)| && (q != [] ==> b == |NewWrites(v, ev)|)
    requires a > Overlap(v, ev) + b
    ensures q == []
  {
  }

  lemma {:induction false} LiveCatchesUp(e: Engine, v: View, ev: Event, p: Pair, a: nat, b: nat, i: nat)
    returns (b': nat)
    requires Joins(v, ev) && At(e, v, ev, [], p, a, b) && i < a && a == Overlap(v, ev) + b + 1
    ensures At(e, v, ev, [], Effect(e, p, FinalizeLive(Writes(ev.finalized)[i])), a, b')
    ensures b' == b || b' == b + 1
    ensures i == Overlap(v, ev) + b ==> b' == b + 1
    ensures b' == b ==> Effect(e, p, FinalizeLive(Writes(ev.finalized)[i])) == p
  {
    var w, u := Writes(ev.finalized)[i], Writes(ev.finalized)[a - 1];
    LibOneAhead(e, v, ev, p, a, b);
    assert Replay(e, Replay(e, Tip(e, v), NewWrites(v, ev)[..b + 1]), []) == p.lib;
    if w == u {
      b' := b + 1;
      assert Effect(e, p, FinalizeLive(w)).live == p.lib;
    } else {
      b' := b;
    }
  }

  /** The next adopted write, on LIVE. */
  lemma {:induction false} AdoptionAdvances(e: Engine, v: View, ev: Event, p: Pair, a: nat, b: nat)
    requires Joins(v, ev) && At(e, v, ev, [], p, a, b) && b < |NewWrites(v, ev)|
    ensures At(e, v, ev, [], Effect(e, p, AdoptLive(NewWrites(v, ev)[b])), a, b + 1)
  {
    var ns := NewWrites(v, ev);
    assert ns[..b + 1] == ns[..b] + [ns[b]];
    ReplayOne(e, Tip(e, v), ns[..b], ns[b]);
  }

  // ---------------------------------------------------------------------------
  // Resuming

  /** Executing the finalized write `i` on LIB again changes nothing. */
  ghost predicate LibRepeats(e: Engine, ev: Event, p: Pair, i: nat)
  {
    i < |Writes(ev.finalized)| ==> Effect(e, p, FinalizeLib(Writes(ev.finalized)[i])) == p
  }

  /** Adopting the new write `j` on LIVE again changes nothing. */
  ghost predicate LiveRepeats(e: Engine, v: View, ev: Event, p: Pair, j: nat)
  {
    j < |NewWrites(v, ev)| ==> Quiet(e, p.live, NewWrites(v, ev)[j])
  }

  /** Whatever the first `m` executions repeat is skipped or rejected again: the first
      `a` finalized writes on LIB, and those of the first `b` new writes that the
      event adopts on LIVE. */
  ghost predicate RepeatsUpTo(e: Engine, v: View, ev: Event, p: Pair, a: nat, b: nat, m: nat)
  {
    var f, h := |Writes(ev.finalized)|, Overlap(v, ev);
    && (forall i: nat :: i < a && i < LibCount(f, m) ==> LibRepeats(e, ev, p, i))
    && (forall j: nat :: f - h <= j < b && j < LiveCount(f, m) - h ==> LiveRepeats(e, v, ev, p, j))
  }

  ghost predicate Repeats(e: Engine, v: View, ev: Event, p: Pair, a: nat, b: nat)
  {
    && (forall i: nat :: i < a ==> LibRepeats(e, ev, p, i))
    && (forall j: nat :: |Writes(ev.finalized)| - Overlap(v, ev) <= j < b ==> LiveRepeats(e, v, ev, p, j))
  }

  function Later(x: int, y: int): int
  {
    if x <= y then y else x
  }

  ghost predicate Keeps(r: Replica, r': Replica)
  {
    forall tx :: tx in r.applied ==> tx in r'.applied && r'.applied[tx] == r.applied[tx]
  }

  /** How far `m` executions bring LIVE: it may be one further than the count, when it
      caught up early with the write that only LIB had. */
  predicate Counts(f: nat, h: nat, a: nat, b: nat, m: nat, b': nat)
  {
    var counted := Later(b, LiveCount(f, m) - h);
    b' == counted || (b' == b + 1 && counted == b && a == h + b + 1)
  }

  /** After `m` executions. */
  ghost predicate Reached(e: Engine, v: View, ev: Event, q: seq<Write>, p: Pair, p': Pair, a: nat, b: nat, m: nat,
                          b': nat)
  {
    var f, h := |Writes(ev.finalized)|, Overlap(v, ev);
    && At(e, v, ev, q, p', Later(a, LibCount(f, m)), b')
    && Counts(f, h, a, b, m, b')
    && (LibCount(f, m) <= a ==> p'.lib == p.lib)
    && (b' == b ==> p'.live == p.live)
    && Keeps(p.live, p'.live) && Keeps(p.lib, p'.lib)
  }

  lemma {:induction false} ResumesOnce(e: Engine, v: View, ev: Event, q: seq<Write>, p: Pair, a: nat, b: nat, m: nat,
                                       n: nat, b1: nat) returns (b': nat)
    requires Joins(v, ev) && n < m <= |DirectExecutions(ev)| && RepeatsUpTo(e, v, ev, p, a, b, m)
    requires Reached(e, v, ev, q, p, Effects(e, p, DirectExecutions(ev)[..n]), a, b, n, b1)
    ensures Reached(e, v, ev, q, p, Effects(e, p, DirectExecutions(ev)[..n + 1]), a, b, n + 1, b')
  {
    RepeatsEarlier(e, v, ev, p, a, b, m, n + 1);
    EffectsNext(e, p, DirectExecutions(ev), n);
    b' := ResumesNext(e, v, ev, q, p, Effects(e, p, DirectExecutions(ev)[..n]), a, b, n, b1);
  }

  lemma {:induction false} Resumes(e: Engine, v: View, ev: Event, q: seq<Write>, p: Pair, a: nat, b: nat, m: nat)
    returns (b': nat)
    requires Joins(v, ev) && At(e, v, ev, q, p, a, b) && RepeatsUpTo(e, v, ev, p, a, b, m)
    requires m <= |DirectExecutions(ev)|
    ensures Reached(e, v, ev, q, p, Effects(e, p, DirectExecutions(ev)[..m]), a, b, m, b')
  {
    b' := b;
    ReachedStart(e, v, ev, q, p, a, b);
    for n := 0 to m
      invariant Reached(e, v, ev, q, p, Effects(e, p, DirectExecutions(ev)[..n]), a, b, n, b')
    {
      b' := ResumesOnce(e, v, ev, q, p, a, b, m, n, b');
    }
  }

  lemma {:induction false} ReachedStart(e: Engine, v: View, ev: Event, q: seq<Write>, p: Pair, a: nat, b: nat)
    requires At(e, v, ev, q, p, a, b)
    ensures Reached(e, v, ev, q, p, Effects(e, p, DirectExecutions(ev)[..0]), a, b, 0, b)
  {
    assert DirectExecutions(ev)[..0] == [];
  }

  lemma {:induction false} RepeatsEarlier(e: Engine, v: View, ev: Event, p: Pair, a: nat, b: nat, m: nat, n: nat)
    requires n <= m && RepeatsUpTo(e, v, ev, p, a, b, m)
    ensures RepeatsUpTo(e, v, ev, p, a, b, n)
  {
  }

  lemma {:induction false} EffectsNext(e: Engine, p: Pair, cs: seq<Commit>, i: nat)
    requires i < |cs|
    ensures Effects(e, p, cs[..i + 1]) == Effect(e, Effects(e, p, cs[..i]), cs[i])
  {
    assert cs[..i + 1] == cs[..i] + [cs[i]];
    EffectsConcat(e, p, cs[..i], [cs[i]]);
    var p1 := Effects(e, p, cs[..i]);
    assert Effects(e, p1, [cs[i]]) == Effects(e, Effect(e, p1, cs[i]), []);
  }

  lemma {:induction false} ResumesNext(e: Engine, v: View, ev: Event, q: seq<Write>, p: Pair, p1: Pair, a: nat, b: nat,
                                       m: nat, b1: nat) returns (b': nat)
    requires Joins(v, ev) && RepeatsUpTo(e, v, ev, p, a, b, m + 1)
    requires m < |DirectExecutions(ev)| && Reached(e, v, ev, q, p, p1, a, b, m, b1)
    ensures Reached(e, v, ev, q, p, Effect(e, p1, DirectExecutions(ev)[m]), a, b, m + 1, b')
  {
    ExecutionAt(ev, m);
    if m >= 2 * |Writes(ev.finalized)| {
      b' := AdoptionResumes(e, v, ev, q, p, p1, a, b, m, b1);
    } else if m % 2 == 0 {
      b' := b1;
      LibResumes(e, v, ev, q, p, p1, a, b, m, b1);
    } else {
      b' := LiveResumes(e, v, ev, q, p, p1, a, b, m, b1);
    }
  }

  lemma {:induction false} LibResumes(e: Engine, v: View, ev: Event, q: seq<Write>, p: Pair, p1: Pair, a: nat, b: nat,
                                      m: nat, b1: nat)
    requires Joins(v, ev) && RepeatsUpTo(e, v, ev, p, a, b, m + 1)
    requires m < 2 * |Writes(ev.finalized)| && m % 2 == 0 && Reached(e, v, ev, q, p, p1, a, b, m, b1)
    ensures Reached(e, v, ev, q, p, Effect(e, p1, FinalizeLib(Writes(ev.finalized)[m / 2])), a, b, m + 1, b1)
  {
    var i, f := m / 2, |Writes(ev.finalized)|;
    var w := Writes(ev.finalized)[i];
    assert LibCount(f, m) == i && LibCount(f, m + 1) == i + 1 && LiveCount(f, m + 1) == LiveCount(f, m) == i;
    if i < a {
      assert LibRepeats(e, ev, p, i);
      StillSettled(e, p, p1, w);
    } else {
      LibAdvances(e, v, ev, q, p1, i, b1);
      LibKeeps(e, p1, w);
    }
  }

  lemma {:induction false} StillSettled(e: Engine, p: Pair, p1: Pair, w: Write)
    requires Effect(e, p, FinalizeLib(w)) == p && p1.lib == p.lib && Keeps(p.live, p1.live)
    ensures Effect(e, p1, FinalizeLib(w)) == p1
  {
    assert Mismatched(p.live, w) || ApplyWrite(e, p.lib, w) == p.lib;
  }

  lemma {:induction false} LibKeeps(e: Engine, p: Pair, w: Write)
    ensures Keeps(p.lib, Effect(e, p, FinalizeLib(w)).lib)
  {
  }

  lemma {:induction false} LiveResumes(e: Engine, v: View, ev: Event, q: seq<Write>, p: Pair, p1: Pair, a: nat, b: nat,
                                       m: nat, b1: nat) returns (b': nat)
    requires Joins(v, ev)
    requires m < 2 * |Writes(ev.finalized)| && m % 2 == 1 && Reached(e, v, ev, q, p, p1, a, b, m, b1)
    ensures Reached(e, v, ev, q, p, Effect(e, p1, FinalizeLive(Writes(ev.finalized)[m / 2])), a, b, m + 1, b')
  {
    var i, f := m / 2, |Writes(ev.finalized)|;
    assert LibCount(f, m) == LibCount(f, m + 1) == i + 1 && LiveCount(f, m) == i && LiveCount(f, m + 1) == i + 1;
    b' := LiveAdvances(e, v, ev, q, p1, Later(a, i + 1), b1, i);
  }

  lemma {:induction false} AdoptionRepeats(e: Engine, v: View, ev: Event, q: seq<Write>, p: Pair, p1: Pair, a: nat,
                                           b: nat, m: nat, b1: nat)
    requires Joins(v, ev) && RepeatsUpTo(e, v, ev, p, a, b, m + 1)
    requires 2 * |Writes(ev.finalized)| <= m < |DirectExecutions(ev)| && Reached(e, v, ev, q, p, p1, a, b, m, b1)
    requires m - |Writes(ev.finalized)| < |AllWrites(ev)| && m - |Writes(ev.finalized)| - Overlap(v, ev) < b1
    ensures Reached(e, v, ev, q, p, Effect(e, p1, AdoptLive(AllWrites(ev)[m - |Writes(ev.finalized)|])), a, b, m + 1,
                    b1)
  {
    var f, h := |Writes(ev.finalized)|, Overlap(v, ev);
    var g := m - f - h;
    assert NewWrites(v, ev)[g] == AllWrites(ev)[m - f];
    AdoptedBefore(f, h, a, b, m, b1);
    assert LiveRepeats(e, v, ev, p, g);
  }

  lemma {:induction false} AdoptionContinues(e: Engine, v: View, ev: Event, q: seq<Write>, p: Pair, p1: Pair, a: nat,
                                             b: nat, m: nat, b1: nat)
    requires Joins(v, ev) && 2 * |Writes(ev.finalized)| <= m && Reached(e, v, ev, q, p, p1, a, b, m, b1)
    requires m - |Writes(ev.finalized)| < |AllWrites(ev)| && m - |Writes(ev.finalized)| - Overlap(v, ev) >= b1
    ensures Reached(e, v, ev, q, p, Effect(e, p1, AdoptLive(AllWrites(ev)[m - |Writes(ev.finalized)|])), a, b, m + 1,
                    b1 + 1)
  {
    var f, h := |Writes(ev.finalized)|, Overlap(v, ev);
    assert b1 == m - f - h && Later(a, LibCount(f, m)) == f;
    assert NewWrites(v, ev)[b1] == AllWrites(ev)[m - f];
    AdoptionAdvances(e, v, ev, p1, f, b1);
  }

  lemma {:induction false} ExecutionsLength(ev: Event)
    ensures |DirectExecutions(ev)| == |Writes(ev.finalized)| + |AllWrites(ev)|
  {
    ExecutionAt(ev, 0);
  }

  lemma {:induction false} AdoptionResumes(e: Engine, v: View, ev: Event, q: seq<Write>, p: Pair, p1: Pair, a: nat,
                                           b: nat, m: nat, b1: nat) returns (b': nat)
    requires Joins(v, ev) && RepeatsUpTo(e, v, ev, p, a, b, m + 1)
    requires 2 * |Writes(ev.finalized)| <= m < |DirectExecutions(ev)| && Reached(e, v, ev, q, p, p1, a, b, m, b1)
    ensures m - |Writes(ev.finalized)| < |AllWrites(ev)|
    ensures Reached(e, v, ev, q, p, Effect(e, p1, AdoptLive(AllWrites(ev)[m - |Writes(ev.finalized)|])), a, b, m + 1,
                    b')
  {
    ExecutionsLength(ev);
    if m - |Writes(ev.finalized)| - Overlap(v, ev) < b1 {
      b' := b1;
      AdoptionRepeats(e, v, ev, q, p, p1, a, b, m, b1);
    } else {
      b' := b1 + 1;
      AdoptionContinues(e, v, ev, q, p, p1, a, b, m, b1);
    }
  }

  lemma {:induction false} AdoptedBefore(f: nat, h: nat, a: nat, b: nat, m: nat, b': nat)
    requires h <= f && a <= f && 2 * f <= m && Counts(f, h, a, b, m, b') && m - f - h < b'
    ensures b' == b && f - h <= m - f - h < b
  {
  }

  // ---------------------------------------------------------------------------
  // Agreement

  /** A direct application, resumed from anywhere, restores agreement. */
  lemma {:induction false} DirectApplicationAgrees(e: Engine, p: Pair, v: View, queue: seq<Queued>, ev: Event, a: nat,
                                                   b: nat)
    requires Extends(v, ev) && At(e, v, ev, QueuedWrites(queue), p, a, b) && Repeats(e, v, ev, p, a, b)
    ensures InAgreement(e, Effects(e, p, DirectCommits(ev)), ev.view, queue)
  {
    var xs := DirectExecutions(ev);
    ExtensionJoins(e, v, ev);
    ExecutionAt(ev, 0);
    var b' := Resumes(e, v, ev, QueuedWrites(queue), p, a, b, |xs|);
    assert xs[..|xs|] == xs;
    ExecutionsOfDirect(ev);
    EffectsOfExecutions(e, p, DirectCommits(ev));
    ReachedEnd(e, v, ev, QueuedWrites(queue), p, Effects(e, p, xs), a, b, b');
  }

  lemma {:induction false} ReachedEnd(e: Engine, v: View, ev: Event, q: seq<Write>, p: Pair, p': Pair, a: nat, b: nat,
                                      b': nat)
    requires Joins(v, ev) && a <= |Writes(ev.finalized)|
    requires Reached(e, v, ev, q, p, p', a, b, |DirectExecutions(ev)|, b')
    ensures p'.lib == Replay(e, Base(e, v), Writes(ev.finalized))
    ensures p'.live == Replay(e, Replay(e, Tip(e, v), NewWrites(v, ev)), q)
  {
    var fs, ns := Writes(ev.finalized), NewWrites(v, ev);
    ExecutionAt(ev, 0);
    AllCounted(|fs|, Overlap(v, ev), |ns|, a, b, b');
    assert fs[..|fs|] == fs && ns[..|ns|] == ns;
  }

  lemma {:induction false} AllCounted(f: nat, h: nat, n: nat, a: nat, b: nat, b': nat)
    requires h <= f <= h + n && a <= f && b' <= n && Counts(f, h, a, b, f + h + n, b')
    ensures b' == n && Later(a, LibCount(f, f + h + n)) == f
  {
  }

  /** An attempt cut after `k` transactions. */
  lemma {:induction false} DirectCut(e: Engine, p: Pair, v: View, q: seq<Write>, ev: Event, a: nat, b: nat, k: nat)
    returns (b': nat)
    requires Joins(v, ev) && At(e, v, ev, q, p, a, b) && Repeats(e, v, ev, p, a, b) && k <= |DirectCommits(ev)|
    ensures var m := |Executions(DirectCommits(ev)[..k])|;
      m <= |DirectExecutions(ev)| && Reached(e, v, ev, q, p, Effects(e, p, DirectCommits(ev)[..k]), a, b, m, b')
  {
    var cs := DirectCommits(ev);
    ExecutionsOfDirect(ev);
    ExecutionsPrefix(cs, k);
    var m := |Executions(cs[..k])|;
    assert Executions(cs[..k]) == DirectExecutions(ev)[..m];
    EffectsOfExecutions(e, p, cs[..k]);
    b' := Resumes(e, v, ev, q, p, a, b, m);
  }

  // ---------------------------------------------------------------------------
  // Exactly when

  lemma {:induction false} MarkersOfReplay(e: Engine, r: Replica, ws: seq<Write>, tx: TxId)
    requires tx in Replay(e, r, ws).applied
    ensures tx in r.applied || exists w :: w in ws && w.tx == tx
    decreases |ws|
  {
    if ws != [] {
      MarkersOfReplay(e, ApplyWrite(e, r, ws[0]), ws[1..], tx);
      if tx !in r.applied {
        assert ws[0] in ws;
      }
    }
  }

  /** An id that a prefix did not mark is not marked by the rest either. */
  lemma {:induction false} UnmarkedStays(e: Engine, r: Replica, ws: seq<Write>, n: nat, i: nat)
    requires DistinctIds(ws) && i < n <= |ws| && ws[i].tx !in Replay(e, r, ws[..n]).applied
    ensures ws[i].tx !in Replay(e, r, ws).applied
  {
    assert ws == ws[..n] + ws[n..];
    ReplayConcat(e, r, ws[..n], ws[n..]);
    if ws[i].tx in Replay(e, r, ws).applied {
      MarkersOfReplay(e, Replay(e, r, ws[..n]), ws[n..], ws[i].tx);
    }
  }

  ghost predicate NoInstall(cs: seq<Commit>)
  {
    forall c :: c in cs ==> !c.InstallRebuild? && !c.CommitLocal?
  }

  /** Such transactions only add markers. */
  lemma {:induction false} EffectsKeep(e: Engine, p: Pair, cs: seq<Commit>)
    requires NoInstall(cs)
    ensures Keeps(p.lib, Effects(e, p, cs).lib) && Keeps(p.live, Effects(e, p, cs).live)
    decreases |cs|
  {
    if cs != [] {
      assert cs[0] in cs;
      var p1 := Effect(e, p, cs[0]);
      EffectsKeep(e, p1, cs[1..]);
      assert Keeps(p.lib, p1.lib) && Keeps(p.live, p1.live);
    }
  }

  lemma {:induction false} DirectExecutionsKeep(e: Engine, p: Pair, ev: Event, m: nat)
    requires m <= |DirectExecutions(ev)|
    ensures var p1 := Effects(e, p, DirectExecutions(ev)[..m]); var p' := Effects(e, p, DirectExecutions(ev));
      Keeps(p1.lib, p'.lib) && Keeps(p1.live, p'.live)
  {
    var xs := DirectExecutions(ev);
    EffectsSplit(e, p, xs, m);
    forall c | c in xs[m..]
      ensures !c.InstallRebuild? && !c.CommitLocal?
    {
      var i :| m <= i < |xs| && xs[i] == c;
      ExecutionAt(ev, i);
    }
    EffectsKeep(e, Effects(e, p, xs[..m]), xs[m..]);
  }

  /** While LIB repeats what it has executed, it does not move. */
  lemma {:induction false} LibWaits(e: Engine, v: View, ev: Event, p: Pair, a: nat, b: nat, i: nat) returns (b1: nat)
    requires Joins(v, ev) && At(e, v, ev, [], p, a, b) && i < a && RepeatsUpTo(e, v, ev, p, a, b, 2 * i)
    ensures 2 * i < |DirectExecutions(ev)| && DirectExecutions(ev)[2 * i] == FinalizeLib(Writes(ev.finalized)[i])
    ensures var p1 := Effects(e, p, DirectExecutions(ev)[..2 * i]);
      && p1.lib == p.lib && At(e, v, ev, [], p1, a, b1)
      && (b1 == b ==> p1.live == p.live) && (b1 == b || (b1 == b + 1 && a == Overlap(v, ev) + b + 1))
  {
    ExecutionAt(ev, 2 * i);
    assert LibCount(|Writes(ev.finalized)|, 2 * i) == i && LiveCount(|Writes(ev.finalized)|, 2 * i) == i;
    b1 := Resumes(e, v, ev, [], p, a, b, 2 * i);
  }

  /** If a finalized write that LIB has executed would change LIB now, it does, and LIB
      ends with a mark that the history does not give it. */
  lemma {:induction false} LibMustRepeat(e: Engine, v: View, ev: Event, p: Pair, a: nat, b: nat, i: nat)
    requires Joins(v, ev) && At(e, v, ev, [], p, a, b) && DistinctIds(Writes(ev.finalized)) && i < a
    requires RepeatsUpTo(e, v, ev, p, a, b, 2 * i) && !LibRepeats(e, ev, p, i)
    ensures Effects(e, p, DirectExecutions(ev)).lib != Replay(e, Base(e, v), Writes(ev.finalized))
  {
    var fs, xs := Writes(ev.finalized), DirectExecutions(ev);
    assert fs[i].tx !in p.lib.applied;
    var b1 := LibWaits(e, v, ev, p, a, b, i);
    UnsettledRuns(e, v, ev, p, Effects(e, p, xs[..2 * i]), a, b, i, b1);
    EffectsNext(e, p, xs, 2 * i);
    DirectExecutionsKeep(e, p, ev, 2 * i + 1);
    UnmarkedStays(e, Base(e, v), fs, a, i);
  }

  lemma {:induction false} UnsettledRuns(e: Engine, v: View, ev: Event, p: Pair, p1: Pair, a: nat, b: nat, i: nat,
                                         b1: nat)
    requires Joins(v, ev) && At(e, v, ev, [], p, a, b) && DistinctIds(Writes(ev.finalized)) && i < a
    requires !LibRepeats(e, ev, p, i) && p1.lib == p.lib && At(e, v, ev, [], p1, a, b1)
    requires (b1 == b ==> p1.live == p.live) && (b1 == b || (b1 == b + 1 && a == Overlap(v, ev) + b + 1))
    ensures Writes(ev.finalized)[i].tx in Effect(e, p1, FinalizeLib(Writes(ev.finalized)[i])).lib.applied
  {
    var w := Writes(ev.finalized)[i];
    if b1 != b {
      LibOneAhead(e, v, ev, p, a, b);
      var u := Writes(ev.finalized)[a - 1];
      assert Replay(e, Replay(e, Tip(e, v), NewWrites(v, ev)[..b + 1]), []) == p.lib == p1.live;
      assert w.tx !in p.lib.applied;
    }
  }

  /** Where a new write beyond the finalized ones is executed. */
  lemma {:induction false} AdoptionAt(v: View, ev: Event, j: nat)
    requires Joins(v, ev) && |Writes(ev.finalized)| - Overlap(v, ev) <= j < |NewWrites(v, ev)|
    ensures var m := |Writes(ev.finalized)| + Overlap(v, ev) + j;
      m < |DirectExecutions(ev)| && DirectExecutions(ev)[m] == AdoptLive(NewWrites(v, ev)[j])
  {
    ExecutionAt(ev, |Writes(ev.finalized)| + Overlap(v, ev) + j);
  }

  /** While LIVE repeats what it has executed, it does not move. */
  lemma {:induction false} LiveWaits(e: Engine, v: View, ev: Event, p: Pair, a: nat, b: nat, j: nat)
    requires Joins(v, ev) && At(e, v, ev, [], p, a, b) && |Writes(ev.finalized)| - Overlap(v, ev) <= j < b
    requires RepeatsUpTo(e, v, ev, p, a, b, |Writes(ev.finalized)| + Overlap(v, ev) + j)
    requires |Writes(ev.finalized)| + Overlap(v, ev) + j < |DirectExecutions(ev)|
    ensures Effects(e, p, DirectExecutions(ev)[..|Writes(ev.finalized)| + Overlap(v, ev) + j]).live == p.live
  {
    var f, h := |Writes(ev.finalized)|, Overlap(v, ev);
    var b1 := Resumes(e, v, ev, [], p, a, b, f + h + j);
    AdoptedBefore(f, h, a, b, f + h + j, b1);
  }

  lemma {:induction false} LiveMarkStays(e: Engine, p: Pair, ev: Event, m: nat, tx: TxId)
    requires m < |DirectExecutions(ev)|
    requires tx in Effect(e, Effects(e, p, DirectExecutions(ev)[..m]), DirectExecutions(ev)[m]).live.applied
    ensures tx in Effects(e, p, DirectExecutions(ev)).live.applied
  {
    EffectsNext(e, p, DirectExecutions(ev), m);
    DirectExecutionsKeep(e, p, ev, m + 1);
  }

  lemma {:induction false} LiveLeavesMarker(e: Engine, v: View, ev: Event, p: Pair, a: nat, b: nat, j: nat)
    requires Joins(v, ev) && At(e, v, ev, [], p, a, b)
    requires |Writes(ev.finalized)| - Overlap(v, ev) <= j < b && !LiveRepeats(e, v, ev, p, j)
    requires RepeatsUpTo(e, v, ev, p, a, b, |Writes(ev.finalized)| + Overlap(v, ev) + j)
    ensures NewWrites(v, ev)[j].tx in Effects(e, p, DirectExecutions(ev)).live.applied
  {
    var m, w := |Writes(ev.finalized)| + Overlap(v, ev) + j, NewWrites(v, ev)[j];
    AdoptionAt(v, ev, j);
    LiveWaits(e, v, ev, p, a, b, j);
    assert w.tx in ApplyWrite(e, p.live, w).applied;
    LiveMarkStays(e, p, ev, m, w.tx);
  }

  /** Likewise for an adopted write and LIVE. */
  lemma {:induction false} LiveMustRepeat(e: Engine, v: View, ev: Event, p: Pair, a: nat, b: nat, j: nat)
    requires Joins(v, ev) && At(e, v, ev, [], p, a, b) && DistinctIds(AllWrites(ev))
    requires |Writes(ev.finalized)| - Overlap(v, ev) <= j < b && !LiveRepeats(e, v, ev, p, j)
    requires RepeatsUpTo(e, v, ev, p, a, b, |Writes(ev.finalized)| + Overlap(v, ev) + j)
    ensures Effects(e, p, DirectExecutions(ev)).live != Replay(e, Tip(e, v), NewWrites(v, ev))
  {
    var ns := NewWrites(v, ev);
    LiveLeavesMarker(e, v, ev, p, a, b, j);
    assert Replay(e, Replay(e, Tip(e, v), ns[..b]), []) == Replay(e, Tip(e, v), ns[..b]);
    NewDiffer(v, ev);
    UnmarkedStays(e, Tip(e, v), ns, b, j);
  }

  lemma {:induction false} NewDiffer(v: View, ev: Event)
    requires Joins(v, ev) && DistinctIds(AllWrites(ev))
    ensures DistinctIds(NewWrites(v, ev))
  {
  }

  lemma {:induction false} DirectEffects(e: Engine, p: Pair, ev: Event)
    ensures Effects(e, p, DirectCommits(ev)) == Effects(e, p, DirectExecutions(ev))
  {
    ExecutionsOfDirect(ev);
    EffectsOfExecutions(e, p, DirectCommits(ev));
  }

  lemma {:induction false} ExecutionsDisagree(e: Engine, p: Pair, v: View, ev: Event, a: nat, b: nat)
    requires Joins(v, ev) && At(e, v, ev, [], p, a, b) && DistinctIds(AllWrites(ev)) && !Repeats(e, v, ev, p, a, b)
    ensures var p' := Effects(e, p, DirectExecutions(ev));
      p'.lib != Replay(e, Base(e, v), Writes(ev.finalized)) || p'.live != Replay(e, Tip(e, v), NewWrites(v, ev))
  {
    if !(forall i: nat :: i < a ==> LibRepeats(e, ev, p, i)) {
      var i := FirstLibChange(e, ev, p, a);
      LibRepeatsBelow(e, v, ev, p, a, b, i);
      FinalizedDiffer(ev);
      LibMustRepeat(e, v, ev, p, a, b, i);
    } else {
      var j := FirstLiveChange(e, v, ev, p, |Writes(ev.finalized)| - Overlap(v, ev), b);
      LiveMustRepeat(e, v, ev, p, a, b, j);
    }
  }

  /** Where an interrupted attempt stopped within what this event executes, this event
      restores agreement if and only if whatever it executes again is skipped or
      rejected again. No two of its writes share an id. */
  lemma {:induction false} ResumptionAgreesExactlyWhenItRepeats(e: Engine, p: Pair, v: View, ev: Event, a: nat, b: nat)
    requires Extends(v, ev) && At(e, v, ev, [], p, a, b) && DistinctIds(AllWrites(ev))
    ensures InAgreement(e, Effects(e, p, DirectCommits(ev)), ev.view, []) <==> Repeats(e, v, ev, p, a, b)
  {
    assert QueuedWrites([]) == [];
    if Repeats(e, v, ev, p, a, b) {
      DirectApplicationAgrees(e, p, v, [], ev, a, b);
    } else {
      ExtensionJoins(e, v, ev);
      DirectEffects(e, p, ev);
      ExecutionsDisagree(e, p, v, ev, a, b);
      assert Expected(e, ev.view, []) == Tip(e, ev.view);
    }
  }

  lemma {:induction false} FinalizedDiffer(ev: Event)
    requires DistinctIds(AllWrites(ev))
    ensures DistinctIds(Writes(ev.finalized))
  {
    var fs := Writes(ev.finalized);
    assert forall i :: 0 <= i < |fs| ==> AllWrites(ev)[i] == fs[i];
  }

  lemma {:induction false} FirstLibChange(e: Engine, ev: Event, p: Pair, a: nat) returns (i: nat)
    requires !(forall i: nat :: i < a ==> LibRepeats(e, ev, p, i))
    ensures i < a && !LibRepeats(e, ev, p, i) && forall k: nat :: k < i ==> LibRepeats(e, ev, p, k)
  {
    i := 0;
    while LibRepeats(e, ev, p, i)
      invariant i < a && forall k: nat :: k < i ==> LibRepeats(e, ev, p, k)
      decreases a - i
    {
      i := i + 1;
    }
  }

  lemma {:induction false} LibRepeatsBelow(e: Engine, v: View, ev: Event, p: Pair, a: nat, b: nat, i: nat)
    requires i < |Writes(ev.finalized)| && forall k: nat :: k < i ==> LibRepeats(e, ev, p, k)
    ensures RepeatsUpTo(e, v, ev, p, a, b, 2 * i)
  {
  }

  lemma {:induction false} FirstLiveChange(e: Engine, v: View, ev: Event, p: Pair, from: nat, b: nat) returns (j: nat)
    requires !(forall j: nat :: from <= j < b ==> LiveRepeats(e, v, ev, p, j))
    ensures from <= j < b && !LiveRepeats(e, v, ev, p, j)
    ensures forall k: nat :: from <= k < j ==> LiveRepeats(e, v, ev, p, k)
  {
    j := from;
    while LiveRepeats(e, v, ev, p, j)
      invariant from <= j < b && forall k: nat :: from <= k < j ==> LiveRepeats(e, v, ev, p, k)
      decreases b - j
    {
      j := j + 1;
    }
  }

  /** For any event: LIVE agrees afterwards only if the event, or the saved history,
      holds every write that LIVE has taken. */
  lemma {:induction false} LiveLeftoversMustReturn(e: Engine, p: Pair, v: View, ev: Event, tx: TxId)
    requires Extends(v, ev) && Effects(e, p, DirectCommits(ev)).live == Expected(e, ev.view, []) && tx in p.live.applied
    ensures tx in Tip(e, v).applied || exists w :: w in NewWrites(v, ev) && w.tx == tx
  {
    ExtensionJoins(e, v, ev);
    DirectEffects(e, p, ev);
    DirectExecutionsKeep(e, p, ev, 0);
    assert DirectExecutions(ev)[..0] == [];
    assert QueuedWrites([]) == [] && Expected(e, ev.view, []) == Tip(e, ev.view);
    MarkersOfReplay(e, Tip(e, v), NewWrites(v, ev), tx);
  }

  /** Likewise LIB, for the finalized writes. */
  lemma {:induction false} LibLeftoversMustReturn(e: Engine, p: Pair, v: View, ev: Event, tx: TxId)
    requires Extends(v, ev) && Effects(e, p, DirectCommits(ev)).lib == Base(e, ev.view) && tx in p.lib.applied
    ensures tx in Base(e, v).applied || exists w :: w in Writes(ev.finalized) && w.tx == tx
  {
    ExtensionJoins(e, v, ev);
    DirectEffects(e, p, ev);
    DirectExecutionsKeep(e, p, ev, 0);
    assert DirectExecutions(ev)[..0] == [];
    MarkersOfReplay(e, Base(e, v), Writes(ev.finalized), tx);
  }

  /** Nothing is adopted before the finalized writes are executed. */
  lemma {:induction false} LibRepeatsThroughFinalization(e: Engine, v: View, ev: Event, p: Pair, a: nat, b: nat)
    ensures 2 * |Writes(ev.finalized)| <= |DirectExecutions(ev)|
    ensures (forall i: nat :: i < a ==> LibRepeats(e, ev, p, i)) ==>
      RepeatsUpTo(e, v, ev, p, a, b, 2 * |Writes(ev.finalized)|)
  {
    ExecutionAt(ev, 0);
  }

  /** With writes queued and every new write without effect below them, a direct
      application agrees if and only if the adopted writes have no effect above
      them either. */
  lemma {:induction false} QueuedAgreesExactlyWhenAdoptedQuiet(e: Engine, p: Pair, v: View, queue: seq<Queued>,
                                                               ev: Event, a: nat)
    requires Extends(v, ev) && queue != []
    requires p.live == Expected(e, v, queue) && forall w :: w in NewWrites(v, ev) ==> Quiet(e, Tip(e, v), w)
    requires a <= |Writes(ev.finalized)| && p.lib == Replay(e, Base(e, v), Writes(ev.finalized)[..a])
    requires forall i: nat :: i < a ==> LibRepeats(e, ev, p, i)
    ensures InAgreement(e, Effects(e, p, DirectCommits(ev)), ev.view, queue)
       <==> forall w :: w in Writes(ev.adopted) ==> Quiet(e, p.live, w)
  {
    var q, f, xs := QueuedWrites(queue), |Writes(ev.finalized)|, DirectExecutions(ev);
    QuietAbove(e, p, v, queue, ev, a);
    ExtensionJoins(e, v, ev);
    DirectEffects(e, p, ev);
    var b := |NewWrites(v, ev)|;
    var b1 := Resumes(e, v, ev, q, p, a, b, 2 * f);
    var p1 := Effects(e, p, xs[..2 * f]);
    assert b1 == b && p1.live == p.live && p1.lib == Base(e, ev.view) by {
      assert Writes(ev.finalized)[..f] == Writes(ev.finalized);
    }
    EffectsSplit(e, p, xs, 2 * f);
    assert xs[2 * f..] == ExecutingAll(LiveOnly, Writes(ev.adopted)) by {
      if f > 0 {
        FinalizingAt(Writes(ev.finalized), 0);
      }
    }
    AdoptionEffects(e, p1, Writes(ev.adopted));
    ReplayIsQuietExactlyWhenWritesAre(e, p.live, Writes(ev.adopted));
  }

  lemma {:induction false} QuietAbove(e: Engine, p: Pair, v: View, queue: seq<Queued>, ev: Event, a: nat)
    requires Extends(v, ev) && queue != []
    requires p.live == Expected(e, v, queue) && forall w :: w in NewWrites(v, ev) ==> Quiet(e, Tip(e, v), w)
    requires a <= |Writes(ev.finalized)| && p.lib == Replay(e, Base(e, v), Writes(ev.finalized)[..a])
    ensures At(e, v, ev, QueuedWrites(queue), p, a, |NewWrites(v, ev)|)
    ensures Expected(e, ev.view, queue) == p.live
    ensures (forall i: nat :: i < a ==> LibRepeats(e, ev, p, i)) ==>
      && RepeatsUpTo(e, v, ev, p, a, |NewWrites(v, ev)|, 2 * |Writes(ev.finalized)|)
      && 2 * |Writes(ev.finalized)| <= |DirectExecutions(ev)|
  {
    var ns := NewWrites(v, ev);
    ExtensionJoins(e, v, ev);
    ReplayIsQuietExactlyWhenWritesAre(e, Tip(e, v), ns);
    assert ns[..|ns|] == ns;
    LibRepeatsThroughFinalization(e, v, ev, p, a, |ns|);
  }

  lemma {:induction false} AdoptionEffects(e: Engine, p: Pair, ws: seq<Write>)
    ensures Effects(e, p, ExecutingAll(LiveOnly, ws)) == Pair(p.lib, Replay(e, p.live, ws))
    decreases |ws|
  {
    if ws != [] {
      var p1 := Effect(e, p, AdoptLive(ws[0]));
      assert ExecutingAll(LiveOnly, ws)[1..] == ExecutingAll(LiveOnly, ws[1..]);
      AdoptionEffects(e, p1, ws[1..]);
    }
  }
}
