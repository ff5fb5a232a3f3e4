/** Packing the oldest queued writes into one channel inscription, and finding a
    saved publication in the queue again. */
module Publication {
  import opened Wrappers
  import opened SqlHistory
  import opened Commits
  import Participant
  import opened QueueLemmas

  type Payload = nat

  /** The wire codec. `encodedLength` is the uncompressed length of a write and
      `size` the length of a payload, which compression makes unpredictable. */
  datatype Codec = Codec(decode: Payload -> Option<seq<Write>>, encode: seq<Write> -> Payload,
                         encodedLength: Write -> nat, size: Payload -> nat)

  const MAX_BODY_BYTES: nat := 64 * 1024 * 1024
  const BATCH_COUNT_BYTES: nat := 2
  const MAX_BATCH_WRITES: nat := 65535

  /** What `ChannelBatch::new` accepts. */
  predicate ValidBatch(ws: seq<Write>)
  {
    0 < |ws| <= MAX_BATCH_WRITES && DistinctIds(ws)
  }

  /** Decoding returns exactly what was encoded. */
  ghost predicate RoundTrips(c: Codec)
  {
    forall ws :: ValidBatch(ws) ==> c.decode(c.encode(ws)) == Some(ws)
  }

  datatype Pending = Pending(tx: TxId, payload: Payload)
  datatype Batch = Batch(writes: seq<Pending>, payload: Payload)
  datatype Error = InvalidLocalState | InvalidTransaction | InscriptionTooLarge

  /** The one write a stored payload holds. */
  function Stored(c: Codec, p: Pending): Option<Write>
  {
    match c.decode(p.payload)
    case Some(ws) => if |ws| == 1 then Some(ws[0]) else None
    case None => None
  }

  /** The queue entry decodes to the write it names. */
  predicate Sound(c: Codec, p: Pending)
  {
    Stored(c, p).Some? && Stored(c, p).value.tx == p.tx
  }

  function Decoded(c: Codec, pending: seq<Pending>): seq<Write>
    requires forall i :: 0 <= i < |pending| ==> Sound(c, pending[i])
  {
    seq(|pending|, i requires 0 <= i < |pending| && Sound(c, pending[i]) => Stored(c, pending[i]).value)
  }

  function BodyLength(c: Codec, ws: seq<Write>): nat
  {
    if ws == [] then BATCH_COUNT_BYTES else BodyLength(c, ws[..|ws| - 1]) + c.encodedLength(ws[|ws| - 1])
  }

  /** `n` halved `j` times. */
  function Halved(n: nat, j: nat): nat
  {
    if j == 0 then n else Halved(n, j - 1) / 2
  }

  function Min(a: nat, b: nat): nat
  {
    if a <= b then a else b
  }

  /** `m` is the longest prefix within the count limit whose body fits. */
  ghost predicate IsLongestBody(c: Codec, pending: seq<Pending>, maxTransactions: nat, m: nat)
  {
    && m <= Min(|pending|, maxTransactions)
    && (forall i :: 0 <= i < m ==> Sound(c, pending[i]))
    && (m > 0 ==> BodyLength(c, Decoded(c, pending[..m])) <= MAX_BODY_BYTES)
    && (m < Min(|pending|, maxTransactions) ==>
          Sound(c, pending[m]) && BodyLength(c, Decoded(c, pending[..m + 1])) > MAX_BODY_BYTES)
  }

  /** Filling the body reaches entry `k`, which does not decode to the write it names. */
  ghost predicate MeetsUnsound(c: Codec, pending: seq<Pending>, maxTransactions: nat, k: nat)
  {
    && k < Min(|pending|, maxTransactions)
    && (forall i :: 0 <= i < k ==> Sound(c, pending[i]))
    && (k > 0 ==> BodyLength(c, Decoded(c, pending[..k])) <= MAX_BODY_BYTES)
    && !Sound(c, pending[k])
  }

  predicate Fits(c: Codec, ws: seq<Write>, maxSize: nat)
  {
    c.size(c.encode(ws)) <= maxSize
  }

  lemma {:induction false} DecodedPrefix(c: Codec, pending: seq<Pending>, n: nat, m: nat)
    requires n <= m <= |pending| && forall i :: 0 <= i < m ==> Sound(c, pending[i])
    ensures Decoded(c, pending[..m])[..n] == Decoded(c, pending[..n])
  {
  }

  lemma {:induction false} BodyLengthOfNext(c: Codec, pending: seq<Pending>, n: nat)
    requires n < |pending| && forall i :: 0 <= i <= n ==> Sound(c, pending[i])
    ensures BodyLength(c, Decoded(c, pending[..n + 1]))
         == BodyLength(c, Decoded(c, pending[..n])) + c.encodedLength(Stored(c, pending[n]).value)
  {
    assert Decoded(c, pending[..n + 1])[..n] == Decoded(c, pending[..n]);
  }

  /** A body is its count and its writes, one after the other. */
  lemma {:induction false} BodyLengthAddsUp(c: Codec, ws: seq<Write>, w: Write)
    ensures BodyLength(c, []) == 2 && BodyLength(c, ws + [w]) == BodyLength(c, ws) + c.encodedLength(w)
  {
    assert (ws + [w])[..|ws|] == ws;
  }

  /** Halving `j` times divides by a power of two, rounding down. */
  lemma {:induction false} HalvedDivides(n: nat, j: nat)
    ensures Halved(n, j) * PowerOfTwo(j) <= n < (Halved(n, j) + 1) * PowerOfTwo(j)
  {
    if j > 0 {
      HalvedDivides(n, j - 1);
      TwiceAsWide(n, Halved(n, j - 1), PowerOfTwo(j - 1));
    }
  }

  lemma TwiceAsWide(n: nat, h: nat, p: nat)
    requires h * p <= n < (h + 1) * p
    ensures h / 2 * (2 * p) <= n < (h / 2 + 1) * (2 * p)
  {
    var q, r := h / 2, h % 2;
    assert h == 2 * q + r;
    assert h * p == q * (2 * p) + r * p;
    assert (h + 1) * p == h * p + p && (q + 1) * (2 * p) == q * (2 * p) + 2 * p;
    assert r == 0 || r == 1;
  }

  function PowerOfTwo(j: nat): nat
  {
    if j == 0 then 1 else 2 * PowerOfTwo(j - 1)
  }

  /** Longer bodies are at least as large. */
  lemma {:induction false} BodyLengthGrows(c: Codec, ws: seq<Write>, n: nat)
    requires n <= |ws|
    ensures BodyLength(c, ws[..n]) <= BodyLength(c, ws)
    decreases |ws|
  {
    if n == |ws| {
      assert ws[..n] == ws;
    } else {
      assert ws[..|ws| - 1][..n] == ws[..n];
      BodyLengthGrows(c, ws[..|ws| - 1], n);
    }
  }

  /** Past the longest body, nothing is within the limits. */
  lemma {:induction false} BeyondLongestBody(c: Codec, pending: seq<Pending>, maxTransactions: nat, m: nat, k: nat)
    requires IsLongestBody(c, pending, maxTransactions, m) && m < k <= Min(|pending|, maxTransactions)
    requires forall i :: 0 <= i < k ==> Sound(c, pending[i])
    ensures BodyLength(c, Decoded(c, pending[..k])) > MAX_BODY_BYTES
  {
    DecodedPrefix(c, pending, m + 1, k);
    BodyLengthGrows(c, Decoded(c, pending[..k]), m + 1);
  }

  lemma {:induction false} LongestBodyIsSound(c: Codec, pending: seq<Pending>, maxTransactions: nat, m: nat)
    requires IsLongestBody(c, pending, maxTransactions, m)
    ensures forall k: nat :: !MeetsUnsound(c, pending, maxTransactions, k)
  {
    forall k: nat ensures !MeetsUnsound(c, pending, maxTransactions, k) {
      if MeetsUnsound(c, pending, maxTransactions, k) && m < k {
        BeyondLongestBody(c, pending, maxTransactions, m, k);
      }
    }
  }

  /** The first loop of `prepare`: the longest prefix of the queue whose
      uncompressed body fits. */
  method TakeBody(c: Codec, pending: seq<Pending>, maxTransactions: nat) returns (r: Result<seq<Write>, Error>)
    requires maxTransactions > 0
    ensures r.Ok? ==>
      IsLongestBody(c, pending, maxTransactions, |r.value|) && r.value == Decoded(c, pending[..|r.value|])
    ensures r.Err? ==> r.error == InvalidLocalState
    ensures r.Err? <==> exists k: nat :: MeetsUnsound(c, pending, maxTransactions, k)
  {
    var writes: seq<Write> := [];
    var bodyLen := BATCH_COUNT_BYTES;
    var limit := Min(|pending|, maxTransactions);
    assert Decoded(c, pending[..0]) == [];
    while |writes| < limit
      invariant |writes| <= limit
      invariant forall i :: 0 <= i < |writes| ==> Sound(c, pending[i])
      invariant writes == Decoded(c, pending[..|writes|])
      invariant bodyLen == BodyLength(c, writes)
      invariant |writes| > 0 ==> bodyLen <= MAX_BODY_BYTES
      decreases limit - |writes|
    {
      var queued := pending[|writes|];
      var write := Stored(c, queued);
      if write.None? || write.value.tx != queued.tx {
        assert MeetsUnsound(c, pending, maxTransactions, |writes|);
        return Err(InvalidLocalState);
      }
      BodyLengthOfNext(c, pending, |writes|);
      bodyLen := bodyLen + c.encodedLength(write.value);
      if bodyLen > MAX_BODY_BYTES {
        break;
      }
      writes := writes + [write.value];
    }
    LongestBodyIsSound(c, pending, maxTransactions, |writes|);
    r := Ok(writes);
  }

  /** `n` writes are the first of the successive halvings that fit. */
  ghost predicate FirstFit(c: Codec, all: seq<Write>, maxSize: nat, n: nat)
  {
    exists j: nat ::
      n == Halved(|all|, j) && 0 < n <= |all| && Fits(c, all[..n], maxSize) && NoneFits(c, all, maxSize, j)
  }

  /** None of the first `j` halvings fits. */
  ghost predicate NoneFits(c: Codec, all: seq<Write>, maxSize: nat, j: nat)
  {
    forall i :: 0 <= i < j ==> Halved(|all|, i) <= |all| && !Fits(c, all[..Halved(|all|, i)], maxSize)
  }

  /** The batch is valid and no halving of it fits. */
  ghost predicate NeverFits(c: Codec, all: seq<Write>, maxSize: nat)
  {
    ValidBatch(all) && forall j: nat :: 0 < Halved(|all|, j) <= |all| ==> !Fits(c, all[..Halved(|all|, j)], maxSize)
  }

  lemma {:induction false} HalvedPastOne(n: nat, j: nat, i: nat)
    requires j < i && Halved(n, j) <= 1
    ensures Halved(n, i) == 0
    decreases i
  {
    if j + 1 < i {
      HalvedPastOne(n, j, i - 1);
    }
  }

  /** The second loop of `prepare`: halve until the batch fits. The halving
      terminates, and gives up exactly when no halving fits. */
  method Shrink(c: Codec, all: seq<Write>, maxSize: nat) returns (r: Result<seq<Write>, Error>)
    requires |all| <= MAX_BATCH_WRITES
    ensures r.Ok? ==> FirstFit(c, all, maxSize, |r.value|) && r.value == all[..|r.value|] && ValidBatch(r.value)
    ensures r == Err(InvalidTransaction) <==> !ValidBatch(all)
    ensures r == Err(InscriptionTooLarge) <==> NeverFits(c, all, maxSize)
    ensures r != Err(InvalidLocalState)
  {
    var writes := all;
    ghost var j := 0;
    while true
      invariant |writes| == Halved(|all|, j) <= |all| && writes == all[..|writes|]
      invariant NoneFits(c, all, maxSize, j)
      invariant j > 0 ==> ValidBatch(all) && |writes| > 0
      decreases |writes|
    {
      if !ValidBatch(writes) {
        return Err(InvalidTransaction);
      }
      if Fits(c, writes, maxSize) {
        return Ok(writes);
      }
      if |writes| == 1 {
        forall i: nat | j < i ensures Halved(|all|, i) == 0 {
          HalvedPastOne(|all|, j, i);
        }
        return Err(InscriptionTooLarge);
      }
      writes := writes[..|writes| / 2];
      j := j + 1;
    }
  }

  /** The longest body cannot be published: it is empty, it repeats an id, or no halving
      of it fits. */
  ghost predicate Unpackable(c: Codec, pending: seq<Pending>, maxTransactions: nat, maxSize: nat)
  {
    exists m: nat ::
      && IsLongestBody(c, pending, maxTransactions, m)
      && (!ValidBatch(Decoded(c, pending[..m])) || NeverFits(c, Decoded(c, pending[..m]), maxSize))
  }

  /** A publication is a prefix of the queue in commit order, the first of the
      successive halvings of the longest body that fits one inscription; its
      payload carries exactly the writes of that prefix. An entry that does not
      decode to the write it names, a body without a first write or with a repeated
      id, and a body of which no halving fits are the three errors. */
  method Prepare(c: Codec, pending: seq<Pending>, maxTransactions: nat, maxSize: nat)
    returns (r: Result<Option<Batch>, Error>)
    requires 0 < maxTransactions <= MAX_BATCH_WRITES && RoundTrips(c)
    ensures r == Ok(None) <==> pending == []
    ensures r.Ok? && r.value.Some? ==>
      var batch, n := r.value.value, |r.value.value.writes|;
      && 0 < n <= |pending| && n <= maxTransactions
      && batch.writes == pending[..n]
      && (forall i :: 0 <= i < n ==> Sound(c, pending[i]))
      && c.decode(batch.payload) == Some(Decoded(c, pending[..n]))
      && c.size(batch.payload) <= maxSize
      && exists m: nat ::
           IsLongestBody(c, pending, maxTransactions, m) && FirstFit(c, Decoded(c, pending[..m]), maxSize, n)
    ensures r == Err(InvalidLocalState) <==> exists k: nat :: MeetsUnsound(c, pending, maxTransactions, k)
    ensures r.Err? && r.error != InvalidLocalState ==>
      && pending != []
      && exists m: nat ::
           && IsLongestBody(c, pending, maxTransactions, m)
           && (r.error == InvalidTransaction <==> !ValidBatch(Decoded(c, pending[..m])))
           && (r.error == InscriptionTooLarge <==> NeverFits(c, Decoded(c, pending[..m]), maxSize))
  {
    if pending == [] {
      return Ok(None);
    }
    var body := TakeBody(c, pending, maxTransactions);
    if body.Err? {
      return Err(body.error);
    }
    ghost var m := |body.value|;
    LongestBodyIsSound(c, pending, maxTransactions, m);
    var writes := Shrink(c, body.value, maxSize);
    if writes.Err? {
      return Err(writes.error);
    }
    var n := |writes.value|;
    DecodedPrefix(c, pending, n, m);
    r := Ok(Some(Batch(pending[..n], c.encode(writes.value))));
  }

  /** A saved write and a queue entry are the same write. */
  predicate Matches(c: Codec, w: Write, p: Pending)
  {
    w.tx == p.tx && Stored(c, p).Some? && Stored(c, p).value.content == w.content
  }

  /** `Some(n)` exactly when the payload decodes to `n` writes that match the first
      `n` queue entries, whatever is queued behind them. */
  method MatchesPending(c: Codec, payload: Payload, pending: seq<Pending>) returns (r: Result<Option<nat>, Error>)
    ensures r.Ok? && r.value.Some? ==>
      && c.decode(payload).Some? && r.value.value == |c.decode(payload).value| <= |pending|
      && forall i :: 0 <= i < r.value.value ==> Matches(c, c.decode(payload).value[i], pending[i])
    ensures c.decode(payload).Some? && |c.decode(payload).value| <= |pending|
      && (forall i :: 0 <= i < |c.decode(payload).value| ==> Matches(c, c.decode(payload).value[i], pending[i]))
      ==> r == Ok(Some(|c.decode(payload).value|))
    ensures r.Err? ==> r.error == InvalidLocalState && exists i :: 0 <= i < |pending| && Stored(c, pending[i]).None?
  {
    var batch := c.decode(payload);
    if batch.None? {
      return Ok(None);
    }
    var writes := batch.value;
    if |writes| > |pending| {
      return Ok(None);
    }
    for i := 0 to |writes|
      invariant forall j :: 0 <= j < i ==> Matches(c, writes[j], pending[j])
    {
      var original := Stored(c, pending[i]);
      if original.None? {
        return Err(InvalidLocalState);
      }
      if writes[i].tx != pending[i].tx || writes[i].content != original.value.content {
        return Ok(None);
      }
    }
    r := Ok(Some(|writes|));
  }

  /** After a crash between the control commit and the queue removal, recovery finds
      exactly the published prefix, with any newer writes behind it. */
  method PublishThenRecover(c: Codec, pending: seq<Pending>, newer: seq<Pending>, maxTransactions: nat, maxSize: nat)
    returns (batch: Option<Batch>, matched: Option<nat>)
    requires 0 < maxTransactions <= MAX_BATCH_WRITES && RoundTrips(c)
    ensures batch.Some? ==> batch.value.writes <= pending && matched == Some(|batch.value.writes|)
  {
    var prepared := Prepare(c, pending, maxTransactions, maxSize);
    if prepared.Err? || prepared.value.None? {
      return None, None;
    }
    var b := prepared.value.value;
    var n := |b.writes|;
    forall i | 0 <= i < n ensures Matches(c, Decoded(c, pending[..n])[i], (pending + newer)[i]) {
      assert Sound(c, pending[i]);
    }
    var found := MatchesPending(c, b.payload, pending + newer);
    batch, matched := Some(b), found.value;
  }

  // ---------------------------------------------------------------------------
  // The queue of the participant, as it is stored

  /** Each queued write is stored as its id and the payload that `EncodedWrite::new`
      made of it alone. */
  function StoredQueue(c: Codec, queue: seq<Queued>): (pending: seq<Pending>)
    ensures |pending| == |queue|
  {
    seq(|queue|, i requires 0 <= i < |queue| => Pending(queue[i].write.tx, c.encode([queue[i].write])))
  }

  /** Reading the queue back gives the queued writes. */
  lemma {:induction false} StoredQueueDecodes(c: Codec, queue: seq<Queued>, n: nat)
    requires RoundTrips(c) && n <= |queue|
    ensures forall i :: 0 <= i < |queue| ==>
      Sound(c, StoredQueue(c, queue)[i]) && Stored(c, StoredQueue(c, queue)[i]).value == queue[i].write
    ensures Decoded(c, StoredQueue(c, queue)[..n]) == QueuedWrites(queue[..n])
  {
    forall i | 0 <= i < |queue| ensures Stored(c, StoredQueue(c, queue)[i]) == Some(queue[i].write) {
      assert ValidBatch([queue[i].write]);
    }
    QueuedWritesAt(queue[..n]);
  }

  /** On the stored queue the match is the one the participant makes on writes, and
      it never fails. */
  method FindInQueue(c: Codec, payload: Payload, msg: MsgId, queue: seq<Queued>) returns (r: Option<nat>)
    requires RoundTrips(c)
    ensures r == Participant.MatchesPending(Inscription(msg, c.decode(payload)), queue)
  {
    var pending := StoredQueue(c, queue);
    StoredQueueDecodes(c, queue, |queue|);
    var found := MatchesPending(c, payload, pending);
    QueuedWritesAt(queue);
    r := found.value;
  }
}
