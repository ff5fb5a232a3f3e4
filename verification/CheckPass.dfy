/** Checking the scheduled members against the cache of earlier checks. */
module CheckPass {
  import opened CrateSchedule

  type Entries = map<Id, Key>

  /** No entry, or one for other contents. */
  predicate IsStale(entries: Entries, key: Id -> Key, m: Id)
  {
    m !in entries || entries[m] != key(m)
  }

  /** A dependency was checked again with success. */
  ghost predicate Rechecked(w: Workspace, ran: set<Id>, ok: Id -> bool, m: Id)
  {
    exists d :: Depends(w, m, d) && d in ran && ok(d)
  }

  ghost predicate SettledOne(w: Workspace, before: Entries, after: Entries, key: Id -> Key, ok: Id -> bool,
                             ran: set<Id>, m: Id)
  {
    && (m in ran <==> IsStale(before, key, m) || Rechecked(w, ran, ok, m))
    && (!IsStale(after, key, m) <==> m !in ran || ok(m))
  }

  ghost predicate WaitingOne(w: Workspace, before: Entries, after: Entries, ok: Id -> bool, ran: set<Id>, m: Id)
  {
    && (m in after <==> m in before && !Rechecked(w, ran, ok, m))
    && (m in after ==> after[m] == before[m])
  }

  /** The effect of checking `done` in order: a member ran exactly when it was stale or
      a dependency was checked again with success, and its entry is current afterwards
      unless its check failed. Members not reached lost their entry exactly when a
      dependency was checked again. */
  ghost predicate Pass(w: Workspace, before: Entries, after: Entries, key: Id -> Key, ok: Id -> bool, done: seq<Id>,
                       ran: set<Id>)
  {
    && ran <= ToSet(done)
    && (forall m :: m in done ==> SettledOne(w, before, after, key, ok, ran, m))
    && (forall m :: m !in done ==> WaitingOne(w, before, after, ok, ran, m))
  }

  // ---------------------------------------------------------------------------
  // The cache directory

  /** `checkedAt` records when each member last passed its check. */
  class Cache {
    var entries: Entries
    ghost var clock: nat
    ghost var checkedAt: map<Id, nat>

    /** A kept entry is later than the last successful check of every dependency. */
    ghost predicate Valid(w: Workspace)
      reads this
    {
      && (forall m :: m in entries ==> m in checkedAt)
      && (forall m :: m in checkedAt ==> checkedAt[m] < clock)
      && (forall m, d :: m in entries && Depends(w, m, d) && d in checkedAt ==> checkedAt[d] < checkedAt[m])
    }

    constructor ()
      ensures entries == map[] && forall w :: Valid(w)
    {
      entries, clock, checkedAt := map[], 0, map[];
    }

    method InvalidateDependents(dependents: set<Id>)
      modifies this`entries
      ensures entries == old(entries) - dependents
    {
      var todo := dependents;
      while todo != {}
        invariant todo <= dependents && entries == old(entries) - (dependents - todo)
      {
        var d :| d in todo;
        entries := entries - {d};
        todo := todo - {d};
      }
    }

    /** The entry is saved before the dependents' entries are removed. */
    method HandleSuccess(ghost w: Workspace, m: Id, key: Key, dependents: set<Id>)
      requires Valid(w) && forall x :: Depends(w, x, m) ==> x in dependents
      modifies this
      ensures Valid(w) && entries == old(entries)[m := key] - dependents
    {
      entries := entries[m := key];
      InvalidateDependents(dependents);
      checkedAt := checkedAt[m := clock];
      clock := clock + 1;
    }

    /** A current entry is skipped; a failed check changes nothing. */
    method Check(ghost w: Workspace, m: Id, key: Key, dependents: set<Id>, succeeds: bool) returns (ran: bool)
      requires Valid(w) && forall x :: Depends(w, x, m) ==> x in dependents
      modifies this
      ensures Valid(w) && (ran <==> m !in old(entries) || old(entries)[m] != key)
      ensures entries == if ran && succeeds then old(entries)[m := key] - dependents else old(entries)
    {
      if m in entries && entries[m] == key {
        return false;
      }
      if succeeds {
        HandleSuccess(w, m, key, dependents);
      }
      ran := true;
    }
  }

  /** The main loop: all members, or those up to the first failure. */
  method CheckAll(w: Workspace, cache: Cache, dependents: map<Id, set<Id>>, order: seq<Id>, key: Id -> Key,
                  ok: Id -> bool, continueOnFailure: bool)
      returns (done: nat, ran: set<Id>, failed: seq<Id>)
    requires ValidWorkspace(w) && Inverts(w, dependents) && IsPrefix(w, order) && cache.Valid(w)
    modifies cache
    ensures cache.Valid(w)
    ensures done <= |order| && Pass(w, old(cache.entries), cache.entries, key, ok, order[..done], ran)
    ensures forall m :: m in failed <==> m in ran && !ok(m)
    ensures done < |order| ==> failed != [] && !continueOnFailure
  {
    done, ran, failed := 0, {}, [];
    ghost var before := cache.entries;
    NothingRan(w, before, key, ok);
    while done < |order|
      invariant done <= |order| && cache.Valid(w)
      invariant Pass(w, before, cache.entries, key, ok, order[..done], ran)
      invariant forall m :: m in failed <==> m in ran && !ok(m)
    {
      var m := order[done];
      DependenciesFirst(w, order, done);
      LastOf(order, done + 1);
      NoneDepends(w, order, done);
      DependentsOf(w, dependents, m);
      OneMoreChecked(w, before, cache.entries, key, ok, order[..done], m, ran, dependents[m]);
      var checks := cache.Check(w, m, key(m), dependents[m], ok(m));
      ran := if checks then ran + {m} else ran;
      done := done + 1;
      if checks && !ok(m) {
        failed := failed + [m];
        if !continueOnFailure {
          return;
        }
      }
    }
  }

  lemma {:induction false} NothingRan(w: Workspace, entries: Entries, key: Id -> Key, ok: Id -> bool)
    ensures Pass(w, entries, entries, key, ok, [], {})
  {
  }

  /** Members that were checked earlier do not depend on the one checked now. */
  lemma {:induction false} EarlierDoesNotDepend(w: Workspace, order: seq<Id>, n: nat, x: Id)
    requires ValidWorkspace(w) && IsPrefix(w, order) && n < |order| && x in order[..n + 1]
    ensures !Depends(w, x, order[n])
  {
    var j :| 0 <= j <= n && order[j] == x;
    DependenciesFirst(w, order, j);
    DependenciesFirst(w, order, n);
    assert order[..j] == order[..n][..j];
  }

  function AfterCheck(now: Entries, m: Id, key: Key, dependents: set<Id>, passed: bool): Entries
  {
    if passed then now[m := key] - dependents else now
  }

  /** Checking `m` after `earlier`, none of which depends on it. */
  lemma {:induction false} OneMoreChecked(w: Workspace, before: Entries, now: Entries, key: Id -> Key, ok: Id -> bool,
                                          earlier: seq<Id>, m: Id, ran: set<Id>, dependents: set<Id>)
    requires Pass(w, before, now, key, ok, earlier, ran) && m !in earlier
    requires forall x :: x in dependents <==> Depends(w, x, m)
    requires forall x :: x in earlier + [m] ==> !Depends(w, x, m)
    ensures var checks := IsStale(now, key, m);
      Pass(w, before, AfterCheck(now, m, key(m), dependents, checks && ok(m)), key, ok, earlier + [m],
           if checks then ran + {m} else ran)
  {
    var checks := IsStale(now, key, m);
    var more := if checks then ran + {m} else ran;
    var next := AfterCheck(now, m, key(m), dependents, checks && ok(m));
    assert m !in ran;
    forall x | x in earlier + [m]
      ensures SettledOne(w, before, next, key, ok, more, x)
    {
      if x == m {
        NowSettled(w, before, now, key, ok, ran, m, dependents);
      } else {
        StillSettled(w, before, now, key, ok, ran, m, x, dependents);
      }
    }
    forall x | x !in earlier + [m]
      ensures WaitingOne(w, before, next, ok, more, x)
    {
      StillWaiting(w, before, now, key, ok, ran, m, x, dependents);
    }
    assert more <= ToSet(earlier + [m]);
  }

  lemma {:induction false} NoneDepends(w: Workspace, order: seq<Id>, n: nat)
    requires ValidWorkspace(w) && IsPrefix(w, order) && n < |order|
    ensures forall x :: x in order[..n + 1] ==> !Depends(w, x, order[n])
  {
    forall x | x in order[..n + 1]
      ensures !Depends(w, x, order[n])
    {
      EarlierDoesNotDepend(w, order, n, x);
    }
  }

  lemma {:induction false} DependentsOf(w: Workspace, dependents: map<Id, set<Id>>, m: Id)
    requires ValidWorkspace(w) && Inverts(w, dependents) && m in w.dependencies
    ensures m in dependents && forall x :: x in dependents[m] <==> Depends(w, x, m)
  {
  }

  lemma {:induction false} NowSettled(w: Workspace, before: Entries, now: Entries, key: Id -> Key, ok: Id -> bool,
                                      ran: set<Id>, m: Id, dependents: set<Id>)
    requires WaitingOne(w, before, now, ok, ran, m) && m !in ran && m !in dependents && !Depends(w, m, m)
    ensures var checks := IsStale(now, key, m);
      SettledOne(w, before, AfterCheck(now, m, key(m), dependents, checks && ok(m)), key, ok,
                 if checks then ran + {m} else ran, m)
  {
    RecheckedOneMore(w, ran, if IsStale(now, key, m) then ran + {m} else ran, ok, m, m);
  }

  lemma {:induction false} StillSettled(w: Workspace, before: Entries, now: Entries, key: Id -> Key, ok: Id -> bool,
                                        ran: set<Id>, m: Id, x: Id, dependents: set<Id>)
    requires SettledOne(w, before, now, key, ok, ran, x) && x != m && x !in dependents && !Depends(w, x, m)
    ensures var checks := IsStale(now, key, m);
      SettledOne(w, before, AfterCheck(now, m, key(m), dependents, checks && ok(m)), key, ok,
                 if checks then ran + {m} else ran, x)
  {
    RecheckedOneMore(w, ran, if IsStale(now, key, m) then ran + {m} else ran, ok, m, x);
  }

  lemma {:induction false} StillWaiting(w: Workspace, before: Entries, now: Entries, key: Id -> Key, ok: Id -> bool,
                                        ran: set<Id>, m: Id, x: Id, dependents: set<Id>)
    requires WaitingOne(w, before, now, ok, ran, x) && x != m && m !in ran && (x in dependents <==> Depends(w, x, m))
    ensures var checks := IsStale(now, key, m);
      WaitingOne(w, before, AfterCheck(now, m, key(m), dependents, checks && ok(m)), ok,
                 if checks then ran + {m} else ran, x)
  {
    RecheckedOneMore(w, ran, if IsStale(now, key, m) then ran + {m} else ran, ok, m, x);
  }

  lemma {:induction false} RecheckedOneMore(w: Workspace, ran: set<Id>, more: set<Id>, ok: Id -> bool, m: Id, x: Id)
    requires more == ran || more == ran + {m}
    ensures Rechecked(w, more, ok, x) <==> Rechecked(w, ran, ok, x) || (m in more && ok(m) && Depends(w, x, m))
  {
    if Rechecked(w, ran, ok, x) {
      var d :| Depends(w, x, d) && d in ran && ok(d);
      assert d in more;
    }
  }

  // ---------------------------------------------------------------------------
  // What a pass achieves

  /** A chain of dependencies from `p[0]` down to a stale member. */
  ghost predicate LeadsToStale(w: Workspace, entries: Entries, key: Id -> Key, p: seq<Id>)
  {
    p != [] && IsWalk(w, p) && IsStale(entries, key, p[|p| - 1])
  }

  /** Without failures, the members checked again are exactly the stale ones and those
      that depend on one, directly or through others; every entry is current
      afterwards. */
  lemma {:induction false} PassRunsStaleClosure(w: Workspace, before: Entries, after: Entries, key: Id -> Key,
                                                ok: Id -> bool, order: seq<Id>, ran: set<Id>, m: Id)
    requires ValidWorkspace(w) && IsPrefix(w, order) && Pass(w, before, after, key, ok, order, ran)
    requires forall x :: x in ran ==> ok(x)
    requires m in order
    ensures !IsStale(after, key, m)
    ensures m in ran <==> exists p :: LeadsToStale(w, before, key, p) && p[0] == m
  {
    assert SettledOne(w, before, after, key, ok, ran, m);
    if m in ran {
      var i :| 0 <= i < |order| && order[i] == m;
      var p := ChainToStale(w, before, after, key, ok, order, ran, i);
      assert LeadsToStale(w, before, key, p) && p[0] == m;
    }
    if p :| LeadsToStale(w, before, key, p) && p[0] == m {
      ListedAreDone(w, order);
      ChainRuns(w, before, after, key, ok, order, ran, p);
    }
  }

  lemma {:induction false} ChainToStale(w: Workspace, before: Entries, after: Entries, key: Id -> Key, ok: Id -> bool,
                                        order: seq<Id>, ran: set<Id>, i: nat) returns (p: seq<Id>)
    requires ValidWorkspace(w) && IsPrefix(w, order) && Pass(w, before, after, key, ok, order, ran)
    requires i < |order| && order[i] in ran
    ensures LeadsToStale(w, before, key, p) && p[0] == order[i]
    decreases i
  {
    var m := order[i];
    assert SettledOne(w, before, after, key, ok, ran, m);
    if IsStale(before, key, m) {
      p := [m];
    } else {
      var d :| Depends(w, m, d) && d in ran && ok(d);
      DependenciesFirst(w, order, i);
      var j :| 0 <= j < i && order[..i][j] == d;
      var rest := ChainToStale(w, before, after, key, ok, order, ran, j);
      p := Prepended(w, before, key, m, rest);
    }
  }

  lemma {:induction false} Prepended(w: Workspace, before: Entries, key: Id -> Key, m: Id, rest: seq<Id>)
    returns (p: seq<Id>)
    requires LeadsToStale(w, before, key, rest) && Depends(w, m, rest[0])
    ensures LeadsToStale(w, before, key, p) && p[0] == m
  {
    p := [m] + rest;
    forall i, j | 0 <= i < j < |p| && j == i + 1
      ensures Depends(w, p[i], p[j])
    {
      if i > 0 {
        assert Depends(w, rest[i - 1], rest[i]);
      }
    }
  }

  lemma {:induction false} ChainRuns(w: Workspace, before: Entries, after: Entries, key: Id -> Key, ok: Id -> bool,
                                     order: seq<Id>, ran: set<Id>, p: seq<Id>)
    requires Done(w, order) && Pass(w, before, after, key, ok, order, ran) && forall x :: x in ran ==> ok(x)
    requires LeadsToStale(w, before, key, p) && p[0] in order
    ensures p[0] in ran
    decreases |p|
  {
    assert SettledOne(w, before, after, key, ok, ran, p[0]);
    if |p| > 1 {
      assert Depends(w, p[0], p[1]);
      var rest := p[1..];
      assert IsWalk(w, rest) by {
        forall i, j | 0 <= i < j < |rest| && j == i + 1
          ensures Depends(w, rest[i], rest[j])
        {
          assert Depends(w, p[i + 1], p[i + 2]);
        }
      }
      ChainRuns(w, before, after, key, ok, order, ran, rest);
    }
  }

  /** With every entry current, a pass runs nothing and changes no entry. */
  lemma {:induction false} CurrentPassRunsNothing(w: Workspace, before: Entries, after: Entries, key: Id -> Key,
                                                  ok: Id -> bool, order: seq<Id>, ran: set<Id>)
    requires ValidWorkspace(w) && IsPrefix(w, order) && Pass(w, before, after, key, ok, order, ran)
    requires forall m :: m in order ==> !IsStale(before, key, m)
    ensures ran == {}
    ensures forall m :: m in order ==> !IsStale(after, key, m)
  {
    if ran != {} {
      var m :| m in ran;
      assert m in ToSet(order);
      var i :| 0 <= i < |order| && order[i] == m;
      var p := ChainToStale(w, before, after, key, ok, order, ran, i);
      ListedAreDone(w, order);
      ChainStays(w, order, p);
    }
    forall m | m in order
      ensures !IsStale(after, key, m)
    {
      assert SettledOne(w, before, after, key, ok, ran, m);
    }
  }

  lemma {:induction false} ChainStays(w: Workspace, order: seq<Id>, p: seq<Id>)
    requires Done(w, order) && p != [] && IsWalk(w, p) && p[0] in order
    ensures p[|p| - 1] in order
    decreases |p|
  {
    if |p| > 1 {
      var init := p[..|p| - 1];
      assert IsWalk(w, init) by {
        forall i, j | 0 <= i < j < |init| && j == i + 1
          ensures Depends(w, init[i], init[j])
        {
          assert Depends(w, p[i], p[i + 1]);
        }
      }
      ChainStays(w, order, init);
      assert Depends(w, p[|p| - 2], p[|p| - 1]);
    }
  }
}
