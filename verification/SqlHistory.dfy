/** Channel writes and what replaying them does to one replicated database. */
module SqlHistory {
  import opened Wrappers

  type TxId = nat
  type MsgId = nat

  /** A transaction with its captured function results, named by its digest:
      contents are equal exactly when their digests are. */
  type Content = nat

  /** The application tables. A database file is a finite byte string, so the
      naturals are enough to name every possible one. */
  type Data = nat

  /** The statements of a transaction, without the captured function results. */
  type Statements = nat

  /** SQL execution: deterministic, and atomic when it rejects. `statements` gives the
      statements of a content. */
  datatype Engine = Engine(empty: Data, run: (Data, Content) -> Option<Data>, statements: Content -> Statements)

  datatype Write = Write(tx: TxId, content: Content)

  /** One channel message. `batch` is `None` when the payload cannot be decoded. */
  datatype Inscription = Inscription(msg: MsgId, batch: Option<seq<Write>>)

  /** Application tables together with the markers of the applied writes. */
  datatype Replica = Replica(data: Data, applied: map<TxId, Content>)

  predicate IsApplied(r: Replica, w: Write)
  {
    w.tx in r.applied && r.applied[w.tx] == w.content
  }

  /** The transaction id carries another content: a deterministic rejection. */
  predicate Mismatched(r: Replica, w: Write)
  {
    w.tx in r.applied && r.applied[w.tx] != w.content
  }

  /** The effect of `apply_channel_write`. A write already applied is skipped; a
      reused id or rejected SQL leaves the replica as it was. */
  function ApplyWrite(e: Engine, r: Replica, w: Write): Replica
  {
    if w.tx in r.applied then r
    else match e.run(r.data, w.content)
      case None => r
      case Some(data) => Replica(data, r.applied[w.tx := w.content])
  }

  function Replay(e: Engine, r: Replica, ws: seq<Write>): Replica
    decreases |ws|
  {
    if ws == [] then r else Replay(e, ApplyWrite(e, r, ws[0]), ws[1..])
  }

  function EmptyReplica(e: Engine): Replica
  {
    Replica(e.empty, map[])
  }

  function BatchWrites(i: Inscription): seq<Write>
  {
    match i.batch
    case None => []
    case Some(ws) => ws
  }

  function Writes(history: seq<Inscription>): seq<Write>
  {
    if history == [] then [] else BatchWrites(history[0]) + Writes(history[1..])
  }

  /** No two writes share an id. */
  predicate DistinctIds(ws: seq<Write>)
  {
    forall i, j :: 0 <= i < j < |ws| ==> ws[i].tx != ws[j].tx
  }

  // ---------------------------------------------------------------------------
  // Laws of replay

  lemma {:induction false} ReplayConcat(e: Engine, r: Replica, xs: seq<Write>, ys: seq<Write>)
    ensures Replay(e, r, xs + ys) == Replay(e, Replay(e, r, xs), ys)
    decreases |xs|
  {
    if xs == [] {
      assert xs + ys == ys;
    } else {
      assert (xs + ys)[1..] == xs[1..] + ys;
      ReplayConcat(e, ApplyWrite(e, r, xs[0]), xs[1..], ys);
    }
  }

  lemma {:induction false} ReplayOne(e: Engine, r: Replica, xs: seq<Write>, w: Write)
    ensures Replay(e, r, xs + [w]) == ApplyWrite(e, Replay(e, r, xs), w)
  {
    ReplayConcat(e, r, xs, [w]);
    assert Replay(e, Replay(e, r, xs), [w]) == ApplyWrite(e, Replay(e, r, xs), w);
  }

  lemma {:induction false} WritesConcat(xs: seq<Inscription>, ys: seq<Inscription>)
    ensures Writes(xs + ys) == Writes(xs) + Writes(ys)
  {
    if xs == [] {
      assert xs + ys == ys;
    } else {
      assert (xs + ys)[1..] == xs[1..] + ys;
      WritesConcat(xs[1..], ys);
    }
  }

  lemma {:induction false} WritesOne(i: Inscription)
    ensures Writes([i]) == BatchWrites(i)
  {
    assert Writes([i]) == BatchWrites(i) + Writes([]);
  }

  /** Markers are never removed or changed. */
  lemma {:induction false} MarkersPersist(e: Engine, r: Replica, ws: seq<Write>, tx: TxId)
    requires tx in r.applied
    ensures tx in Replay(e, r, ws).applied && Replay(e, r, ws).applied[tx] == r.applied[tx]
    decreases |ws|
  {
    if ws != [] {
      MarkersPersist(e, ApplyWrite(e, r, ws[0]), ws[1..], tx);
    }
  }

  /** A marker that replay adds belongs to one of the replayed writes. */
  lemma {:induction false} NewMarkersAreReplayed(e: Engine, r: Replica, ws: seq<Write>, w: Write)
    requires IsApplied(Replay(e, r, ws), w) && forall v :: v in ws ==> v.tx != w.tx
    ensures IsApplied(r, w)
    decreases |ws|
  {
    if ws != [] {
      NewMarkersAreReplayed(e, ApplyWrite(e, r, ws[0]), ws[1..], w);
      assert ws[0] in ws;
    }
  }

  /** Executing `w` now changes nothing: it is applied, or it is rejected. */
  predicate Quiet(e: Engine, r: Replica, w: Write)
  {
    ApplyWrite(e, r, w) == r
  }

  /** The guard in terms of the engine: a write without a marker is quiet exactly
      when the engine rejects it. */
  lemma {:induction false} QuietExactlyWhenMarkedOrRejected(e: Engine, r: Replica, w: Write)
    ensures Quiet(e, r, w) <==> w.tx in r.applied || e.run(r.data, w.content).None?
  {
    if w.tx !in r.applied && e.run(r.data, w.content).Some? {
      assert w.tx in ApplyWrite(e, r, w).applied;
    }
  }

  /** Replay leaves a replica alone exactly when every write is quiet on it. */
  lemma {:induction false} ReplayIsQuietExactlyWhenWritesAre(e: Engine, r: Replica, ws: seq<Write>)
    ensures Replay(e, r, ws) == r <==> forall w :: w in ws ==> Quiet(e, r, w)
    decreases |ws|
  {
    if ws != [] {
      assert ws == [ws[0]] + ws[1..];
      if Quiet(e, r, ws[0]) {
        ReplayIsQuietExactlyWhenWritesAre(e, r, ws[1..]);
      } else {
        MarkersPersist(e, ApplyWrite(e, r, ws[0]), ws[1..], ws[0].tx);
        assert ws[0].tx !in r.applied;
      }
    }
  }

  /** Writes already applied may be replayed again at no effect. */
  lemma {:induction false} ReplayAppliedAgain(e: Engine, r: Replica, ws: seq<Write>)
    requires forall w :: w in ws ==> IsApplied(r, w)
    ensures Replay(e, r, ws) == r
  {
    ReplayIsQuietExactlyWhenWritesAre(e, r, ws);
  }
}
