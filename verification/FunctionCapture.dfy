/** Capture and replay of SQLite functions whose results vary between runs. */
module FunctionCapture {
  import opened Wrappers
  import opened SqlHistory

  type FunctionName = nat
  type Value = int

  datatype Call = Call(fn: FunctionName, result: Value)

  /** What a transaction does next, given the function results it has seen: end
      with new tables, fail, or call one more function. */
  datatype Next = Finish(data: Data) | Reject | Invoke(fn: FunctionName)

  /** A transaction on given tables. Its behaviour depends on the tables and on the
      results of its function calls, and on nothing else. */
  type Program = seq<Value> -> Next

  /** The state shared by the installed callbacks. */
  datatype Mode = Passthrough | Capture(calls: seq<Call>) | Replay(calls: seq<Call>, failed: bool)

  datatype Outcome = Committed(data: Data) | RejectedSql | InvalidPayload

  function Results(calls: seq<Call>): (results: seq<Value>)
    ensures |results| == |calls|
  {
    if calls == [] then [] else [calls[0].result] + Results(calls[1..])
  }

  /** The transaction, given the results, makes these calls first. */
  ghost predicate Follows(p: Program, calls: seq<Call>)
  {
    forall i :: 0 <= i < |calls| ==> p(Results(calls[..i])) == Invoke(calls[i].fn)
  }

  /** The transaction makes exactly these calls and then ends as `last` says. */
  ghost predicate Makes(p: Program, calls: seq<Call>, last: Next)
  {
    Follows(p, calls) && p(Results(calls)) == last && !last.Invoke?
  }

  /** `oracle` lists what the built-ins return, call by call; `None` is a failure. */
  predicate Evaluated(calls: seq<Call>, oracle: seq<Option<Value>>)
  {
    |calls| <= |oracle| && forall i :: 0 <= i < |calls| ==> oracle[i] == Some(calls[i].result)
  }

  /** With these built-ins the transaction makes these calls, and then ends or makes
      a call that fails. */
  ghost predicate Stops(p: Program, calls: seq<Call>, oracle: seq<Option<Value>>)
  {
    && Follows(p, calls) && Evaluated(calls, oracle)
    && (p(Results(calls)).Invoke? ==> |calls| < |oracle| && oracle[|calls|].None?)
  }

  lemma {:induction false} ResultsOfNext(calls: seq<Call>, c: Call)
    ensures Results(calls + [c]) == Results(calls) + [c.result]
  {
    if calls != [] {
      assert (calls + [c])[1..] == calls[1..] + [c];
      ResultsOfNext(calls[1..], c);
    }
  }

  /** One replicated writer connection: its callbacks and their shared mode. */
  class FunctionOverrides {
    var mode: Mode

    constructor ()
      ensures mode == Passthrough
    {
      mode := Passthrough;
    }

    /** The callback. `evaluated` is what the original built-in returns, or `None`
        when it fails, and then nothing is recorded. During replay the recorded
        result is supplied instead, or the replay fails, and stays failed. */
    method InvokeFunction(fn: FunctionName, evaluated: Option<Value>) returns (r: Option<Value>)
      modifies this
      ensures old(mode).Passthrough? ==> r == evaluated && mode == Passthrough
      ensures old(mode).Capture? ==>
        r == evaluated && mode == Capture(old(mode).calls + if evaluated.None? then [] else [Call(fn, evaluated.value)])
      ensures old(mode).Replay? ==>
        var calls := old(mode).calls;
        if calls == [] then r == None && mode == Replay([], true)
        else if calls[0].fn != fn then r == None && mode == Replay(calls[1..], true)
        else r == Some(calls[0].result) && mode == Replay(calls[1..], old(mode).failed)
    {
      match mode
      case Passthrough => r := evaluated;
      case Capture(calls) =>
        if evaluated.None? {
          return None;
        }
        mode := Capture(calls + [Call(fn, evaluated.value)]);
        r := evaluated;
      case Replay(calls, failed) =>
        if calls == [] {
          mode := Replay([], true);
          return None;
        }
        mode := Replay(calls[1..], failed);
        if calls[0].fn != fn {
          mode := Replay(calls[1..], true);
          return None;
        }
        r := Some(calls[0].result);
    }

    /** Local execution; the transaction does stop. It commits exactly when it
        finishes, the captured calls are exactly those it makes, and the connection
        returns to passthrough. */
    method RunCaptured(p: Program, oracle: seq<Option<Value>>) returns (r: Option<(Data, seq<Call>)>)
      requires exists calls :: Stops(p, calls, oracle)
      modifies this
      ensures mode == Passthrough
      ensures r.Some? ==> Makes(p, r.value.1, Finish(r.value.0)) && Evaluated(r.value.1, oracle)
      ensures r.None? ==> exists calls :: Stops(p, calls, oracle) && !p(Results(calls)).Finish?
    {
      ghost var all :| Stops(p, all, oracle);
      mode := Capture([]);
      var seen: seq<Value> := [];
      while p(seen).Invoke?
        invariant mode.Capture? && Reached(all, seen, mode.calls)
        decreases |all| - |seen|
      {
        CaptureNext(p, all, oracle, seen, mode.calls);
        var result := InvokeFunction(p(seen).fn, oracle[|seen|]);
        if result.None? {
          mode := Passthrough;
          return None;
        }
        seen := seen + [result.value];
      }
      CaptureEnds(p, all, oracle, seen, mode.calls);
      if p(seen).Finish? {
        r := Some((p(seen).data, mode.calls));
      } else {
        r := None;
      }
      mode := Passthrough;
    }

    /** Replay on another replica with recorded calls. It commits exactly when the
        transaction makes the recorded calls and then finishes, so it commits the
        data the recorded results lead to; otherwise it changes nothing. */
    method RunReplayed(p: Program, calls: seq<Call>) returns (r: Outcome)
      modifies this
      ensures mode == Passthrough
      ensures forall data :: r == Committed(data) <==> Makes(p, calls, Finish(data))
      ensures ReplayResult(p, calls, 0) == if r.Committed? then Some(r.data) else None
      ensures r == RejectedSql <==> exists n :: 0 <= n <= |calls| && Makes(p, calls[..n], Reject)
    {
      mode := Replay(calls, false);
      var seen: seq<Value> := [];
      var stopped := false;
      assert calls[..0] == [];
      while p(seen).Invoke? && !stopped
        invariant mode.Replay? && |seen| <= |calls|
        invariant !stopped ==> !mode.failed && mode.calls == calls[|seen|..]
        invariant seen == Results(calls[..|seen|])
        invariant forall i :: 0 <= i < |seen| ==> p(Results(calls[..i])) == Invoke(calls[i].fn)
        invariant stopped ==> mode.failed && p(seen).Invoke?
        invariant stopped ==> |seen| == |calls| || p(seen) != Invoke(calls[|seen|].fn)
        decreases |calls| - |seen|, !stopped
      {
        var result := InvokeFunction(p(seen).fn, None);
        if result.None? {
          stopped := true;
        } else {
          assert calls[..|seen| + 1] == calls[..|seen|] + [calls[|seen|]];
          ResultsOfNext(calls[..|seen|], calls[|seen|]);
          seen := seen + [result.value];
        }
      }
      PrefixesDetermine(p, calls, |seen|);
      forall data: Data ensures ReplayResult(p, calls, 0) == Some(data) <==> Makes(p, calls, Finish(data)) {
        ReplayCommitsWhatWasRecorded(p, calls, 0, data);
      }
      assert calls[..|calls|] == calls;
      var Replay(left, failed) := mode;
      mode := Passthrough;
      if failed {
        return InvalidPayload;
      }
      if p(seen).Reject? {
        return RejectedSql;
      }
      if left != [] {
        return InvalidPayload;
      }
      r := Committed(p(seen).data);
    }
  }

  /** The first calls of `all` have been made, with these results. */
  ghost predicate Reached(all: seq<Call>, seen: seq<Value>, calls: seq<Call>)
  {
    calls <= all && seen == Results(calls)
  }

  lemma {:induction false} CaptureNext(p: Program, all: seq<Call>, oracle: seq<Option<Value>>, seen: seq<Value>,
                                       calls: seq<Call>)
    requires Stops(p, all, oracle) && Reached(all, seen, calls) && p(seen).Invoke?
    ensures |seen| < |oracle| && (oracle[|seen|].None? ==> p(Results(all)).Invoke?)
    ensures oracle[|seen|].Some? ==>
      |seen| < |all| && Reached(all, seen + [oracle[|seen|].value], calls + [Call(p(seen).fn, oracle[|seen|].value)])
  {
    var n := |calls|;
    assert calls == all[..n];
    if n == |all| {
      assert calls == all;
    } else {
      assert p(Results(all[..n])) == Invoke(all[n].fn);
      ResultsOfNext(calls, all[n]);
    }
  }

  lemma {:induction false} CallsBeforeTheEnd(p: Program, all: seq<Call>, n: nat)
    requires Follows(p, all) && n <= |all|
    ensures n == |all| || p(Results(all[..n])).Invoke?
  {
    if n < |all| {
      assert p(Results(all[..n])) == Invoke(all[n].fn);
    }
  }

  lemma {:induction false} CaptureEnds(p: Program, all: seq<Call>, oracle: seq<Option<Value>>, seen: seq<Value>,
                                       calls: seq<Call>)
    requires Stops(p, all, oracle) && Reached(all, seen, calls) && !p(seen).Invoke?
    ensures calls == all && Makes(p, calls, p(seen)) && Evaluated(calls, oracle)
  {
    var n := |calls|;
    assert calls == all[..n];
    CallsBeforeTheEnd(p, all, n);
  }

  /** Having followed the recorded calls for `n` steps, any complete account of the
      transaction along them stops exactly where the transaction does. */
  lemma {:induction false} PrefixesDetermine(p: Program, calls: seq<Call>, n: nat)
    requires n <= |calls|
    requires forall i :: 0 <= i < n ==> p(Results(calls[..i])) == Invoke(calls[i].fn)
    ensures forall m, last :: 0 <= m <= |calls| && Makes(p, calls[..m], last) ==> m >= n
    ensures !p(Results(calls[..n])).Invoke? ==>
      forall m, last :: 0 <= m <= |calls| ==>
        (Makes(p, calls[..m], last) <==> m == n && last == p(Results(calls[..n])))
    ensures p(Results(calls[..n])).Invoke? && (n == |calls| || p(Results(calls[..n])) != Invoke(calls[n].fn)) ==>
      forall m, last :: 0 <= m <= |calls| ==> !Makes(p, calls[..m], last)
  {
    forall m, last | 0 <= m <= |calls| && Makes(p, calls[..m], last)
      ensures m >= n
      ensures m > n ==> p(Results(calls[..n])) == Invoke(calls[n].fn)
    {
      if m > n {
        assert calls[..m][..n] == calls[..n] && calls[..m][n] == calls[n];
      }
    }
    forall i | 0 <= i < n ensures p(Results(calls[..n][..i])) == Invoke(calls[..n][i].fn) {
      assert calls[..n][..i] == calls[..i];
    }
  }

  // ---------------------------------------------------------------------------
  // The engine

  /** What a replay commits, having followed the first `n` recorded calls. */
  function ReplayResult(p: Program, calls: seq<Call>, n: nat): Option<Data>
    requires n <= |calls|
    decreases |calls| - n
  {
    match p(Results(calls[..n]))
    case Finish(data) => if n == |calls| then Some(data) else None
    case Reject => None
    case Invoke(fn) => if n < |calls| && calls[n].fn == fn then ReplayResult(p, calls, n + 1) else None
  }

  lemma {:induction false} ReplayCommitsWhatWasRecorded(p: Program, calls: seq<Call>, n: nat, data: Data)
    requires n <= |calls| && Follows(p, calls[..n])
    ensures ReplayResult(p, calls, n) == Some(data) <==> Makes(p, calls, Finish(data))
    decreases |calls| - n
  {
    assert calls[..|calls|] == calls;
    if n < |calls| {
      if p(Results(calls[..n])) == Invoke(calls[n].fn) {
        FollowsNext(p, calls, n);
        ReplayCommitsWhatWasRecorded(p, calls, n + 1, data);
      }
    }
  }

  lemma {:induction false} FollowsNext(p: Program, calls: seq<Call>, n: nat)
    requires n < |calls| && Follows(p, calls[..n]) && p(Results(calls[..n])) == Invoke(calls[n].fn)
    ensures Follows(p, calls[..n + 1])
  {
    var next := calls[..n + 1];
    forall i | 0 <= i < |next| ensures p(Results(next[..i])) == Invoke(next[i].fn) {
      assert next[..i] == calls[..i];
      if i < n {
        assert calls[..n][..i] == calls[..i] && calls[..n][i] == calls[i];
      }
    }
  }

  /** What the statements of a transaction do to given tables, and how a write's
      content holds the statements together with the recorded calls. */
  datatype Sql = Sql(empty: Data, program: (Data, Statements) -> Program,
                     pack: (Statements, seq<Call>) -> Content, unpack: Content -> (Statements, seq<Call>))

  ghost predicate Unpacks(sql: Sql)
  {
    forall t: Statements, calls :: sql.unpack(sql.pack(t, calls)) == (t, calls)
  }

  /** The engine of a replica: unpack the content and replay the recorded calls. */
  function ReplicaEngine(sql: Sql): Engine
  {
    Engine(sql.empty, (data: Data, content: Content) =>
      var (t, calls) := sql.unpack(content); ReplayResult(sql.program(data, t), calls, 0),
      content => sql.unpack(content).0)
  }

  /** Capture and replay are inverse: applying the captured write to any replica with
      the same tables commits what the local execution committed, and the replica then
      holds the tables and the marker of the participant that executed it. */
  method ExecuteThenApply(sql: Sql, here: Replica, there: Replica, tx: TxId, t: Statements, oracle: seq<Option<Value>>)
    returns (local: Option<(Replica, Write)>, remote: Outcome)
    requires Unpacks(sql) && exists calls :: Stops(sql.program(here.data, t), calls, oracle)
    requires here.data == there.data && tx !in here.applied && tx !in there.applied
    ensures local.Some? ==>
      var (committed, w) := local.value;
      && w.tx == tx && IsApplied(committed, w)
      && committed == ApplyWrite(ReplicaEngine(sql), here, w)
      && remote == Committed(committed.data)
      && ApplyWrite(ReplicaEngine(sql), there, w) == Replica(committed.data, there.applied[tx := w.content])
  {
    var capturing := new FunctionOverrides();
    var captured := capturing.RunCaptured(sql.program(here.data, t), oracle);
    local, remote := None, InvalidPayload;
    if captured.Some? {
      var (data, calls) := captured.value;
      var w := Write(tx, sql.pack(t, calls));
      ReplayCommitsWhatWasRecorded(sql.program(here.data, t), calls, 0, data);
      local := Some((Replica(data, here.applied[tx := w.content]), w));
      var replaying := new FunctionOverrides();
      remote := replaying.RunReplayed(sql.program(there.data, sql.unpack(w.content).0), sql.unpack(w.content).1);
    }
  }
}
