/** Sequence facts about ids, queues and lists of commits. */
module QueueLemmas {
  import opened SqlHistory
  import opened WriteStatuses
  import opened Commits
  import opened Participant

  lemma {:induction false} IdsAt(ws: seq<Write>)
    ensures |Ids(ws)| == |ws| && forall i :: 0 <= i < |ws| ==> Ids(ws)[i] == ws[i].tx
  {
    if ws != [] {
      IdsAt(ws[1..]);
    }
  }

  lemma {:induction false} IdsContain(ws: seq<Write>)
    ensures forall w :: w in ws ==> w.tx in Ids(ws)
    ensures forall tx :: tx in Ids(ws) ==> exists w :: w in ws && w.tx == tx
  {
    IdsAt(ws);
    forall w | w in ws ensures w.tx in Ids(ws) {
      var i :| 0 <= i < |ws| && ws[i] == w;
      assert Ids(ws)[i] == w.tx;
    }
    forall tx | tx in Ids(ws) ensures exists w :: w in ws && w.tx == tx {
      var i :| 0 <= i < |Ids(ws)| && Ids(ws)[i] == tx;
      assert ws[i] in ws;
    }
  }

  lemma {:induction false} IdsConcat(xs: seq<Write>, ys: seq<Write>)
    ensures Ids(xs + ys) == Ids(xs) + Ids(ys)
  {
    IdsAt(xs);
    IdsAt(ys);
    IdsAt(xs + ys);
  }

  lemma {:induction false} QueuedWritesAt(queue: seq<Queued>)
    ensures |QueuedWrites(queue)| == |queue|
    ensures forall i :: 0 <= i < |queue| ==> QueuedWrites(queue)[i] == queue[i].write
  {
    if queue != [] {
      QueuedWritesAt(queue[1..]);
    }
  }

  lemma {:induction false} QueuedWritesConcat(xs: seq<Queued>, ys: seq<Queued>)
    ensures QueuedWrites(xs + ys) == QueuedWrites(xs) + QueuedWrites(ys)
  {
    QueuedWritesAt(xs);
    QueuedWritesAt(ys);
    QueuedWritesAt(xs + ys);
  }

  lemma {:induction false} QueuedWritesTake(queue: seq<Queued>, n: nat)
    requires n <= |queue|
    ensures |QueuedWrites(queue)| == |queue|
    ensures QueuedWrites(queue[..n]) == QueuedWrites(queue)[..n]
    ensures QueuedWrites(queue[n..]) == QueuedWrites(queue)[n..]
  {
    QueuedWritesAt(queue);
    QueuedWritesAt(queue[..n]);
    QueuedWritesAt(queue[n..]);
  }

  lemma {:induction false} RemoveNothing(queue: seq<Queued>, ids: seq<TxId>)
    requires forall q :: q in queue ==> q.write.tx !in ids
    ensures Remove(queue, ids) == queue
  {
    if queue != [] {
      RemoveNothing(queue[1..], ids);
    }
  }

  lemma {:induction false} RemoveWithin(queue: seq<Queued>, ids: seq<TxId>, n: nat)
    requires n <= |queue|
    requires forall i :: 0 <= i < n ==> queue[i].write.tx in ids
    requires forall i :: n <= i < |queue| ==> queue[i].write.tx !in ids
    ensures Remove(queue, ids) == queue[n..]
    decreases |queue|
  {
    if n == 0 {
      RemoveNothing(queue, ids);
    } else {
      RemoveWithin(queue[1..], ids, n - 1);
    }
  }

  /** Removing a batch leaves the rest of the queue in order. */
  lemma {:induction false} RemovePrefix(queue: seq<Queued>, n: nat)
    requires n <= |queue| && DistinctIds(QueuedWrites(queue))
    ensures Remove(queue, Ids(QueuedWrites(queue[..n]))) == queue[n..]
  {
    var ids := Ids(QueuedWrites(queue[..n]));
    QueuedWritesAt(queue);
    QueuedWritesAt(queue[..n]);
    IdsAt(QueuedWrites(queue[..n]));
    forall i | 0 <= i < n ensures queue[i].write.tx in ids {
      assert ids[i] == queue[i].write.tx;
    }
    RemoveWithin(queue, ids, n);
  }

  lemma {:induction false} QueueBytesConcat(xs: seq<Queued>, ys: seq<Queued>)
    ensures QueueBytes(xs + ys) == QueueBytes(xs) + QueueBytes(ys)
  {
    if xs == [] {
      assert xs + ys == ys;
    } else {
      assert (xs + ys)[1..] == xs[1..] + ys;
      QueueBytesConcat(xs[1..], ys);
    }
  }

  /** A prefix of a concatenation stops in the first list or in the second. */
  lemma {:induction false} RunPrefix(e: Engine, st: Store, xs: seq<Commit>, ys: seq<Commit>, k: nat)
    requires k <= |xs| + |ys|
    ensures k <= |xs| ==> (xs + ys)[..k] == xs[..k]
    ensures k >= |xs| ==> Run(e, st, (xs + ys)[..k]) == Run(e, Run(e, st, xs), ys[..k - |xs|])
  {
    if k <= |xs| {
      assert (xs + ys)[..k] == xs[..k];
    }
    if k >= |xs| {
      assert (xs + ys)[..k] == xs + ys[..k - |xs|];
      RunConcat(e, st, xs, ys[..k - |xs|]);
    }
  }

  lemma {:induction false} CountLibConcat(xs: seq<Commit>, ys: seq<Commit>)
    ensures CountLib(xs + ys) == CountLib(xs) + CountLib(ys)
  {
    if xs == [] {
      assert xs + ys == ys;
    } else {
      assert (xs + ys)[1..] == xs[1..] + ys;
      CountLibConcat(xs[1..], ys);
    }
  }

  lemma {:induction false} CountLibNone(cs: seq<Commit>)
    requires forall c :: c in cs ==> !c.RebuildLib?
    ensures CountLib(cs) == 0
  {
    if cs != [] {
      assert cs[0] in cs;
      CountLibNone(cs[1..]);
    }
  }

  lemma {:induction false} ObservedWrites(history: seq<Inscription>)
    ensures forall o :: o in Observe(history) ==> o.write in Writes(history)
    ensures forall w :: w in Writes(history) ==> exists o :: o in Observe(history) && o.write == w
  {
    if history != [] {
      ObservedBatch(history[0].msg, BatchWrites(history[0]));
      ObservedWrites(history[1..]);
      forall w | w in Writes(history) ensures exists o :: o in Observe(history) && o.write == w {
        if w in BatchWrites(history[0]) {
          var o :| o in ObserveBatch(history[0].msg, BatchWrites(history[0])) && o.write == w;
          assert o in Observe(history);
        } else {
          var o :| o in Observe(history[1..]) && o.write == w;
          assert o in Observe(history);
        }
      }
    }
  }

  lemma {:induction false} ObservedBatch(msg: MsgId, ws: seq<Write>)
    ensures forall o :: o in ObserveBatch(msg, ws) ==> o.write in ws && o.msg == msg
    ensures forall w :: w in ws ==> Observed(msg, w) in ObserveBatch(msg, ws)
  {
    if ws != [] {
      ObservedBatch(msg, ws[1..]);
    }
  }

  // ---------------------------------------------------------------------------
  // What is observed of a history

  ghost predicate Within(history: seq<Inscription>, o: Observed)
  {
    exists i :: i in history && i.msg == o.msg && o.write in BatchWrites(i)
  }

  lemma {:induction false} ObservedExactlyWithin(history: seq<Inscription>, o: Observed)
    ensures o in Observe(history) <==> Within(history, o)
  {
    if history != [] {
      assert history == [history[0]] + history[1..];
      ObservedInBatch(history[0].msg, BatchWrites(history[0]), o);
      ObservedExactlyWithin(history[1..], o);
      if Within(history, o) && !Within(history[1..], o) {
        var i :| i in history && i.msg == o.msg && o.write in BatchWrites(i);
        assert i == history[0];
      }
    }
  }

  lemma {:induction false} ObservedInBatch(msg: MsgId, ws: seq<Write>, o: Observed)
    ensures o in ObserveBatch(msg, ws) <==> o.msg == msg && o.write in ws
  {
    if ws != [] {
      ObservedInBatch(msg, ws[1..], o);
      assert ws == [ws[0]] + ws[1..];
    }
  }

  lemma {:induction false} MessagesContain(history: seq<Inscription>, msg: MsgId)
    ensures msg in Messages(history) <==> exists i :: i in history && i.msg == msg
  {
    if history != [] {
      assert history == [history[0]] + history[1..];
      MessagesContain(history[1..], msg);
    }
  }
}
