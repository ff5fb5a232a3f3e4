/** The workspace check: members are ordered topologically, then checked in that
    order against a cache whose entries are dropped when a dependency is re-checked. */
module CrateSchedule {

  type Id = nat
  type Key = nat

  /** `name` gives each member's rank in the order of names. */
  datatype Workspace = Workspace(members: seq<Id>, dependencies: map<Id, set<Id>>, name: Id -> nat)

  predicate Distinct(s: seq<Id>)
  {
    forall i, j :: 0 <= i < j < |s| ==> s[i] != s[j]
  }

  /** Dependencies stay within the workspace. */
  ghost predicate ValidWorkspace(w: Workspace)
  {
    forall m, d :: m in w.dependencies && d in w.dependencies[m] ==> d in w.dependencies
  }

  /** The members are listed once each. */
  ghost predicate Lists(w: Workspace)
  {
    Distinct(w.members) && forall m :: m in w.dependencies <==> m in w.members
  }

  ghost predicate UniqueNames(w: Workspace)
  {
    forall m, n :: m in w.dependencies && n in w.dependencies && w.name(m) == w.name(n) ==> m == n
  }

  // ---------------------------------------------------------------------------
  // The order

  /** Members whose dependencies are all listed and that are not listed themselves. */
  ghost function Ready(w: Workspace, listed: seq<Id>): set<Id>
    requires ValidWorkspace(w)
  {
    set m | m in w.dependencies && m !in listed && Unlisted(w, listed, m) == {}
  }

  ghost function Unlisted(w: Workspace, listed: seq<Id>, m: Id): set<Id>
    requires ValidWorkspace(w) && m in w.dependencies
  {
    set d | d in w.dependencies[m] && d !in listed
  }

  /** The next member is the ready one that comes first by name. */
  ghost predicate IsNext(w: Workspace, listed: seq<Id>, m: Id)
    requires ValidWorkspace(w)
  {
    m in Ready(w, listed) && forall r :: r in Ready(w, listed) ==> w.name(m) <= w.name(r)
  }

  ghost predicate IsPrefix(w: Workspace, s: seq<Id>)
    requires ValidWorkspace(w)
  {
    forall i :: 0 <= i < |s| ==> IsNext(w, s[..i], s[i])
  }

  ghost predicate IsSchedule(w: Workspace, s: seq<Id>)
    requires ValidWorkspace(w)
  {
    IsPrefix(w, s) && Ready(w, s) == {}
  }

  /** `dependents` inverts the dependencies. */
  ghost predicate Inverts(w: Workspace, dependents: map<Id, set<Id>>)
    requires ValidWorkspace(w)
  {
    && (forall d :: d in dependents <==> d in w.dependencies)
    && (forall d, m :: d in w.dependencies ==> (m in dependents[d] <==> m in w.dependencies && d in w.dependencies[m]))
  }

  ghost predicate InvertsFirst(w: Workspace, n: nat, dependents: map<Id, set<Id>>)
    requires ValidWorkspace(w) && Lists(w) && n <= |w.members|
  {
    && (forall d :: d in dependents <==> d in w.dependencies)
    && (forall d, m :: d in w.dependencies ==> (m in dependents[d] <==> m in w.members[..n] && d in w.dependencies[m]))
  }

  /** `build_dependents_dispatcher`. */
  method BuildDependents(w: Workspace) returns (dependents: map<Id, set<Id>>)
    requires ValidWorkspace(w) && Lists(w)
    ensures Inverts(w, dependents)
  {
    dependents := map d | d in w.members :: {};
    for i := 0 to |w.members|
      invariant InvertsFirst(w, i, dependents)
    {
      var member := w.members[i];
      var more := AddToEach(dependents, w.dependencies[member], member);
      InvertsOneMore(w, i, dependents, more);
      dependents := more;
    }
    assert w.members[..|w.members|] == w.members;
  }

  lemma {:induction false} InvertsOneMore(w: Workspace, n: nat, before: map<Id, set<Id>>, after: map<Id, set<Id>>)
    requires ValidWorkspace(w) && Lists(w) && n < |w.members| && InvertsFirst(w, n, before) && after.Keys == before.Keys
    requires forall d :: d in after ==>
      after[d] == if d in w.dependencies[w.members[n]] then before[d] + {w.members[n]} else before[d]
    ensures InvertsFirst(w, n + 1, after)
  {
    assert w.members[..n + 1] == w.members[..n] + [w.members[n]];
    forall d, m | d in w.dependencies
      ensures m in after[d] <==> m in w.members[..n + 1] && d in w.dependencies[m]
    {
      assert m in w.members[..n + 1] <==> m in w.members[..n] || m == w.members[n];
      assert m in before[d] <==> m in w.members[..n] && d in w.dependencies[m];
    }
  }

  method AddToEach(dependents: map<Id, set<Id>>, dependencies: set<Id>, member: Id) returns (r: map<Id, set<Id>>)
    requires forall d :: d in dependencies ==> d in dependents
    ensures r.Keys == dependents.Keys
    ensures forall d :: d in r ==> r[d] == if d in dependencies then dependents[d] + {member} else dependents[d]
  {
    r := dependents;
    var todo := dependencies;
    while todo != {}
      invariant todo <= dependencies && r.Keys == dependents.Keys
      invariant forall d :: d in r ==>
        r[d] == if d in dependencies - todo then dependents[d] + {member} else dependents[d]
    {
      var d :| d in todo;
      r := r[d := r[d] + {member}];
      todo := todo - {d};
    }
  }

  /** The heap pops the least name. */
  method PopLeast(w: Workspace, heap: set<Id>) returns (m: Id)
    requires heap != {}
    ensures m in heap && forall x :: x in heap ==> w.name(m) <= w.name(x)
  {
    m :| m in heap;
    var rest := heap - {m};
    while rest != {}
      invariant rest <= heap && m in heap
      invariant forall x :: x in heap - rest ==> w.name(m) <= w.name(x)
    {
      var x :| x in rest;
      if w.name(x) < w.name(m) {
        m := x;
      }
      rest := rest - {x};
    }
  }

  /** What each member still waits for. */
  ghost predicate Tracks(w: Workspace, listed: seq<Id>, remaining: map<Id, set<Id>>)
    requires ValidWorkspace(w)
  {
    remaining.Keys == w.dependencies.Keys && forall m :: m in w.dependencies ==> remaining[m] == Unlisted(w, listed, m)
  }

  ghost predicate State(w: Workspace, listed: seq<Id>, remaining: map<Id, set<Id>>, heap: set<Id>)
    requires ValidWorkspace(w)
  {
    IsPrefix(w, listed) && heap == Ready(w, listed) && Tracks(w, listed, remaining)
  }

  /** Kahn's algorithm: the result is the schedule. */
  method SortTopologically(w: Workspace, dependents: map<Id, set<Id>>) returns (sorted: seq<Id>)
    requires ValidWorkspace(w) && Lists(w) && Inverts(w, dependents)
    ensures IsSchedule(w, sorted)
  {
    var remaining := w.dependencies;
    sorted := [];
    var heap := set m | m in w.members && remaining[m] == {};
    NothingListed(w);
    while heap != {}
      invariant State(w, sorted, remaining, heap)
      decreases Rest(w, sorted)
    {
      var member := PopLeast(w, heap);
      CanRelease(w, sorted, member, remaining, dependents);
      ghost var was := remaining;
      remaining, heap := Release(member, dependents[member], remaining, heap - {member});
      Advance(w, sorted, member, was, remaining, dependents, heap);
      sorted := sorted + [member];
    }
  }

  lemma {:induction false} Advance(w: Workspace, listed: seq<Id>, member: Id, was: map<Id, set<Id>>,
                                   now: map<Id, set<Id>>, dependents: map<Id, set<Id>>, heap: set<Id>)
    requires ValidWorkspace(w) && Lists(w) && Inverts(w, dependents) && IsPrefix(w, listed) && IsNext(w, listed, member)
    requires Tracks(w, listed, was) && now.Keys == was.Keys
    requires forall m :: m in was ==> now[m] == if m in dependents[member] then was[m] - {member} else was[m]
    requires forall m ::
      m in heap <==> m in Ready(w, listed) - {member} || (m in dependents[member] && m in now && now[m] == {})
    ensures State(w, listed + [member], now, heap) && Rest(w, listed + [member]) < Rest(w, listed)
  {
    ListOne(w, listed, member, was, now, dependents);
    ListedAreDone(w, listed);
    ReadyOneMore(w, listed, member, now, dependents, heap);
    assert member in Rest(w, listed) && member !in Rest(w, listed + [member]);
  }

  ghost function Rest(w: Workspace, listed: seq<Id>): set<Id>
  {
    set m | m in w.dependencies && m !in listed
  }

  lemma {:induction false} NothingListed(w: Workspace)
    requires ValidWorkspace(w)
    ensures Tracks(w, [], w.dependencies)
    ensures Ready(w, []) == set m | m in w.dependencies && w.dependencies[m] == {}
  {
    forall m | m in w.dependencies
      ensures w.dependencies[m] == Unlisted(w, [], m)
    {
    }
  }

  /** A listed member's dependencies are listed before it. */
  lemma {:induction false} DependenciesFirst(w: Workspace, s: seq<Id>, i: nat)
    requires ValidWorkspace(w) && IsPrefix(w, s) && i < |s|
    ensures s[i] in w.dependencies && s[i] !in s[..i]
    ensures forall d :: d in w.dependencies[s[i]] ==> d in s[..i]
  {
    assert IsNext(w, s[..i], s[i]);
    forall d | d in w.dependencies[s[i]]
      ensures d in s[..i]
    {
      assert d !in Unlisted(w, s[..i], s[i]);
    }
  }

  ghost predicate Done(w: Workspace, listed: seq<Id>)
  {
    forall m, d :: m in listed && m in w.dependencies && d in w.dependencies[m] ==> d in listed
  }

  lemma {:induction false} ListedAreDone(w: Workspace, s: seq<Id>)
    requires ValidWorkspace(w) && IsPrefix(w, s)
    ensures Done(w, s) && forall m :: m in s ==> m in w.dependencies
  {
    forall m | m in s
      ensures m in w.dependencies && forall d :: d in w.dependencies[m] ==> d in s
    {
      var i :| 0 <= i < |s| && s[i] == m;
      DependenciesFirst(w, s, i);
    }
  }

  lemma {:induction false} CanRelease(w: Workspace, listed: seq<Id>, member: Id, remaining: map<Id, set<Id>>,
                                      dependents: map<Id, set<Id>>)
    requires ValidWorkspace(w) && Inverts(w, dependents) && Tracks(w, listed, remaining) && member in Ready(w, listed)
    ensures forall m :: m in dependents[member] ==> m in remaining && member in remaining[m] && m !in Ready(w, listed)
  {
    forall m | m in dependents[member]
      ensures m in remaining && member in remaining[m] && m !in Ready(w, listed)
    {
      assert member in Unlisted(w, listed, m);
    }
  }

  /** Removes a listed member from its dependents; those left without dependencies
      are pushed. None of them was in the heap, and each held the member. */
  method Release(member: Id, dependents: set<Id>, remaining: map<Id, set<Id>>, heap: set<Id>)
      returns (left: map<Id, set<Id>>, pushed: set<Id>)
    requires forall m :: m in dependents ==> m in remaining && member in remaining[m] && m !in heap
    ensures left.Keys == remaining.Keys
    ensures forall m :: m in remaining ==> left[m] == if m in dependents then remaining[m] - {member} else remaining[m]
    ensures forall m :: m in pushed <==> m in heap || (m in dependents && left[m] == {})
  {
    left, pushed := remaining, heap;
    var todo := dependents;
    while todo != {}
      invariant todo <= dependents && left.Keys == remaining.Keys
      invariant forall m :: m in remaining ==>
        left[m] == if m in dependents - todo then remaining[m] - {member} else remaining[m]
      invariant pushed == heap + set m | m in dependents - todo && left[m] == {}
    {
      var m :| m in todo;
      assert member in left[m] && m !in pushed;
      left := left[m := left[m] - {member}];
      if left[m] == {} {
        pushed := pushed + {m};
      }
      todo := todo - {m};
    }
  }

  lemma {:induction false} ListOne(w: Workspace, listed: seq<Id>, member: Id, was: map<Id, set<Id>>,
                                   now: map<Id, set<Id>>, dependents: map<Id, set<Id>>)
    requires ValidWorkspace(w) && Inverts(w, dependents) && IsPrefix(w, listed) && IsNext(w, listed, member)
    requires Tracks(w, listed, was) && now.Keys == was.Keys
    requires forall m :: m in was ==> now[m] == if m in dependents[member] then was[m] - {member} else was[m]
    ensures IsPrefix(w, listed + [member]) && Tracks(w, listed + [member], now)
  {
    PrefixOneMore(w, listed, member);
    forall m | m in w.dependencies
      ensures now[m] == Unlisted(w, listed + [member], m)
    {
      assert m in dependents[member] <==> member in w.dependencies[m];
      UnlistedAfter(w, listed, member, m);
    }
  }

  lemma {:induction false} UnlistedAfter(w: Workspace, listed: seq<Id>, member: Id, m: Id)
    requires ValidWorkspace(w) && m in w.dependencies && member !in listed
    ensures Unlisted(w, listed + [member], m) == Unlisted(w, listed, m) - {member}
    ensures member in w.dependencies[m] <==> member in Unlisted(w, listed, m)
  {
  }

  lemma {:induction false} ReadyOneMore(w: Workspace, listed: seq<Id>, member: Id, now: map<Id, set<Id>>,
                                        dependents: map<Id, set<Id>>, heap: set<Id>)
    requires ValidWorkspace(w) && Inverts(w, dependents) && Done(w, listed) && member in Ready(w, listed)
    requires Tracks(w, listed + [member], now)
    requires forall m ::
      m in heap <==> m in Ready(w, listed) - {member} || (m in dependents[member] && m in now && now[m] == {})
    ensures heap == Ready(w, listed + [member])
  {
    forall m
      ensures m in heap <==> m in Ready(w, listed + [member])
    {
      assert m in dependents[member] <==> m in w.dependencies && member in w.dependencies[m];
      if m in w.dependencies {
        ReadyAfter(w, listed, member, m);
      }
    }
  }

  lemma {:induction false} PrefixOneMore(w: Workspace, listed: seq<Id>, member: Id)
    requires ValidWorkspace(w) && IsPrefix(w, listed) && IsNext(w, listed, member)
    ensures IsPrefix(w, listed + [member])
  {
    var s := listed + [member];
    forall i | 0 <= i < |s|
      ensures IsNext(w, s[..i], s[i])
    {
      assert s[..i] == listed[..i];
      if i == |listed| {
        assert listed[..i] == listed;
      }
    }
  }

  lemma {:induction false} ReadyAfter(w: Workspace, listed: seq<Id>, member: Id, m: Id)
    requires ValidWorkspace(w) && Done(w, listed) && member in Ready(w, listed) && m in w.dependencies
    ensures m in Ready(w, listed + [member]) <==>
      m in Ready(w, listed) - {member} || (member in w.dependencies[m] && Unlisted(w, listed + [member], m) == {})
  {
    if member in w.dependencies[m] {
      assert member in Unlisted(w, listed, m);
      assert m != member;
    } else {
      assert Unlisted(w, listed + [member], m) == Unlisted(w, listed, m);
    }
  }

  // ---------------------------------------------------------------------------
  // What a schedule promises

  ghost predicate Depends(w: Workspace, m: Id, d: Id)
  {
    m in w.dependencies && d in w.dependencies[m]
  }

  ghost predicate IsWalk(w: Workspace, p: seq<Id>)
  {
    forall i, j :: 0 <= i < j < |p| && j == i + 1 ==> Depends(w, p[i], p[j])
  }

  ghost predicate IsCycle(w: Workspace, p: seq<Id>)
  {
    p != [] && IsWalk(w, p) && Depends(w, p[|p| - 1], p[0])
  }

  /** Unique names leave one possible order. */
  lemma {:induction false} ScheduleIsUnique(w: Workspace, s: seq<Id>, t: seq<Id>)
    requires ValidWorkspace(w) && UniqueNames(w) && IsSchedule(w, s) && IsSchedule(w, t)
    ensures s == t
  {
    if |s| <= |t| {
      Agree(w, s, t, |s|);
      SameEnd(w, s, t);
    } else {
      Agree(w, s, t, |t|);
      SameEnd(w, t, s);
    }
  }

  lemma {:induction false} Agree(w: Workspace, s: seq<Id>, t: seq<Id>, n: nat)
    requires ValidWorkspace(w) && UniqueNames(w) && IsPrefix(w, s) && IsPrefix(w, t) && n <= |s| && n <= |t|
    ensures s[..n] == t[..n]
  {
    if n > 0 {
      Agree(w, s, t, n - 1);
      NextAt(w, s, n - 1);
      NextAt(w, t, n - 1);
      SameNext(w, s[..n - 1], s[n - 1], t[n - 1]);
      LastOf(s, n);
      LastOf(t, n);
    }
  }

  lemma {:induction false} NextAt(w: Workspace, s: seq<Id>, i: nat)
    requires ValidWorkspace(w) && IsPrefix(w, s) && i < |s|
    ensures IsNext(w, s[..i], s[i])
  {
  }

  lemma {:induction false} LastOf(s: seq<Id>, n: nat)
    requires 0 < n <= |s|
    ensures s[..n] == s[..n - 1] + [s[n - 1]]
  {
  }

  lemma {:induction false} SameNext(w: Workspace, listed: seq<Id>, m: Id, n: Id)
    requires ValidWorkspace(w) && UniqueNames(w) && IsNext(w, listed, m) && IsNext(w, listed, n)
    ensures m == n
  {
    assert w.name(m) == w.name(n);
  }

  lemma {:induction false} SameEnd(w: Workspace, s: seq<Id>, t: seq<Id>)
    requires ValidWorkspace(w) && IsSchedule(w, s) && IsPrefix(w, t) && |s| <= |t| && s[..|s|] == t[..|s|]
    ensures s == t
  {
    assert s[..|s|] == s;
    if |s| < |t| {
      NextAt(w, t, |s|);
    } else {
      assert t[..|s|] == t;
    }
  }

  function ToSet(s: seq<Id>): set<Id>
  {
    set m | m in s
  }

  /** Every member is listed exactly when no member depends on itself, directly or
      through others. */
  lemma {:induction false} ListsAllExactlyWhenAcyclic(w: Workspace, s: seq<Id>)
    requires ValidWorkspace(w) && Lists(w) && IsSchedule(w, s)
    ensures Distinct(s)
    ensures |s| == |w.members| <==> !exists p :: IsCycle(w, p)
  {
    ScheduleIsDistinct(w, s);
    if p :| IsCycle(w, p) {
      CycleLeavesSomeOut(w, s, p);
    } else if |s| != |w.members| {
      var c := IncompleteHasCycle(w, s);
      assert IsCycle(w, c);
    }
  }

  lemma {:induction false} CycleLeavesSomeOut(w: Workspace, s: seq<Id>, p: seq<Id>)
    requires ValidWorkspace(w) && Lists(w) && IsPrefix(w, s) && Distinct(s) && IsCycle(w, p)
    ensures |s| < |w.members|
  {
    ListedAreDone(w, s);
    ScheduleIsTopological(w, s, |s|);
    assert s[..|s|] == s;
    CycleIsUnlisted(w, s, p);
    var last := p[|p| - 1];
    assert last in p && Depends(w, last, p[0]);
    assert last in ToSet(w.members) && last !in ToSet(s);
    StrictSubset(ToSet(s), ToSet(w.members));
    DistinctSize(s);
    DistinctSize(w.members);
  }

  lemma {:induction false} IncompleteHasCycle(w: Workspace, s: seq<Id>) returns (c: seq<Id>)
    requires ValidWorkspace(w) && Lists(w) && IsSchedule(w, s) && Distinct(s) && |s| != |w.members|
    ensures IsCycle(w, c)
  {
    ListedAreDone(w, s);
    RestIsStuck(w, s);
    if Rest(w, s) == {} {
      assert forall m :: m in w.members ==> m !in Rest(w, s);
      assert ToSet(s) == ToSet(w.members);
      DistinctSize(s);
      DistinctSize(w.members);
    }
    var u :| u in Rest(w, s);
    assert Distinct([u]);
    c := FindCycle(w, Rest(w, s), [u]);
  }

  lemma {:induction false} ScheduleIsDistinct(w: Workspace, s: seq<Id>)
    requires ValidWorkspace(w) && IsPrefix(w, s)
    ensures Distinct(s)
  {
    forall i, j | 0 <= i < j < |s|
      ensures s[i] != s[j]
    {
      DependenciesFirst(w, s, j);
      assert s[i] == s[..j][i];
    }
  }

  lemma {:induction false} DistinctSize(s: seq<Id>)
    requires Distinct(s)
    ensures |ToSet(s)| == |s|
  {
    if s != [] {
      var init, last := s[..|s| - 1], s[|s| - 1];
      DistinctSize(init);
      assert last !in ToSet(init);
      assert s == init + [last];
      assert ToSet(s) == ToSet(init) + {last};
    }
  }

  lemma {:induction false} StrictSubset(a: set<Id>, b: set<Id>)
    requires a <= b && a != b
    ensures |a| < |b|
  {
    assert !(b <= a);
    assert b == a + (b - a) && b - a != {};
  }

  ghost predicate Avoids(p: seq<Id>, listed: seq<Id>)
  {
    forall x :: x in p ==> x !in listed
  }

  /** Each member comes after its dependencies. */
  ghost predicate IsTopological(w: Workspace, s: seq<Id>)
  {
    s == [] || (IsTopological(w, s[..|s| - 1]) && AllIn(w, s[..|s| - 1], s[|s| - 1]))
  }

  ghost predicate AllIn(w: Workspace, listed: seq<Id>, m: Id)
  {
    m in w.dependencies && m !in listed && forall d :: d in w.dependencies[m] ==> d in listed
  }

  /** A schedule lists every member after its dependencies, once. */
  lemma {:induction false} ScheduleIsTopological(w: Workspace, s: seq<Id>, n: nat)
    requires ValidWorkspace(w) && IsPrefix(w, s) && n <= |s|
    ensures IsTopological(w, s[..n])
  {
    if n > 0 {
      ScheduleIsTopological(w, s, n - 1);
      DependenciesFirst(w, s, n - 1);
      assert s[..n][..n - 1] == s[..n - 1];
    }
  }

  lemma {:induction false} CycleIsUnlisted(w: Workspace, s: seq<Id>, p: seq<Id>)
    requires IsTopological(w, s) && IsCycle(w, p)
    ensures Avoids(p, s)
    decreases |s|
  {
    if s != [] {
      var init, last := s[..|s| - 1], s[|s| - 1];
      CycleIsUnlisted(w, init, p);
      StillAvoids(w, p, init, last);
      assert s == init + [last];
    }
  }

  lemma {:induction false} StillAvoids(w: Workspace, p: seq<Id>, listed: seq<Id>, m: Id)
    requires IsCycle(w, p) && Avoids(p, listed) && AllIn(w, listed, m)
    ensures Avoids(p, listed + [m])
  {
    if m in p {
      var d := NextOnCycle(w, p, m);
    }
  }

  lemma {:induction false} NextOnCycle(w: Workspace, p: seq<Id>, x: Id) returns (d: Id)
    requires IsCycle(w, p) && x in p
    ensures d in p && Depends(w, x, d)
  {
    var k :| 0 <= k < |p| && p[k] == x;
    d := if k == |p| - 1 then p[0] else p[k + 1];
  }

  /** Each member of the set waits for a member of the set. */
  ghost predicate IsStuck(w: Workspace, u: set<Id>)
  {
    forall m {:trigger Waits(w, u, m)} :: m in u ==> Waits(w, u, m)
  }

  ghost predicate Waits(w: Workspace, u: set<Id>, m: Id)
  {
    exists d :: d in u && Depends(w, m, d)
  }

  lemma {:induction false} RestIsStuck(w: Workspace, s: seq<Id>)
    requires ValidWorkspace(w) && Lists(w) && Ready(w, s) == {}
    ensures IsStuck(w, Rest(w, s))
  {
    forall u | u in Rest(w, s)
      ensures Waits(w, Rest(w, s), u)
    {
      assert u !in Ready(w, s);
      var d :| d in Unlisted(w, s, u);
      assert d in Rest(w, s) && Depends(w, u, d);
    }
  }

  /** Following dependencies inside a finite stuck set closes a cycle. */
  lemma {:induction false} FindCycle(w: Workspace, stuck: set<Id>, path: seq<Id>) returns (c: seq<Id>)
    requires IsStuck(w, stuck) && path != [] && Distinct(path) && IsWalk(w, path) && ToSet(path) <= stuck
    ensures IsCycle(w, c)
    decreases |stuck - ToSet(path)|
  {
    var last := path[|path| - 1];
    assert last in ToSet(path);
    assert Waits(w, stuck, last);
    var d :| d in stuck && Depends(w, last, d);
    if d in path {
      var i :| 0 <= i < |path| && path[i] == d;
      c := CloseCycle(w, path, i);
    } else {
      assert ToSet(path + [d]) == ToSet(path) + {d};
      ExtendedWalk(w, path, d);
      StrictSubset(stuck - ToSet(path + [d]), stuck - ToSet(path));
      c := FindCycle(w, stuck, path + [d]);
    }
  }

  lemma {:induction false} ExtendedWalk(w: Workspace, path: seq<Id>, d: Id)
    requires path != [] && Distinct(path) && IsWalk(w, path) && d !in path && Depends(w, path[|path| - 1], d)
    ensures Distinct(path + [d]) && IsWalk(w, path + [d])
  {
    var p := path + [d];
    forall i, j | 0 <= i < j < |p| && j == i + 1
      ensures Depends(w, p[i], p[j])
    {
      if i < |path| - 1 {
        assert Depends(w, path[i], path[i + 1]);
      }
    }
  }

  lemma {:induction false} CloseCycle(w: Workspace, path: seq<Id>, i: nat) returns (c: seq<Id>)
    requires IsWalk(w, path) && i < |path| && Depends(w, path[|path| - 1], path[i])
    ensures IsCycle(w, c)
  {
    c := path[i..];
    forall k, j | 0 <= k < j < |c| && j == k + 1
      ensures Depends(w, c[k], c[j])
    {
      assert Depends(w, path[i + k], path[i + k + 1]);
    }
  }
}
