/** Inclusion paths, and `push_with_paths`, which appends a leaf and patches
    every tracked path in place. */
module MerklePaths {
  import opened Wrappers
  import opened Bits
  import opened MerkleTree
  import opened MountainRange

  /** `siblings[h - 1]` is the root of the sibling subtree at height `h`. */
  datatype MerklePath = MerklePath(leafIndex: nat, siblings: seq<Fr>)

  datatype PathError =
    | InvalidSiblingCount(expected: nat, actual: nat)
    | LeafIndexOutOfRange(leafIndex: nat, leafCount: nat)

  datatype PushError = Full | InvalidTrackedPath(error: PathError)

  // ---------------------------------------------------------------------------
  // Verification of a path

  /** The root recomputed from a leaf and its first `levels` siblings. */
  function PathRoot(d: Digest, p: MerklePath, leaf: Fr, levels: nat): Fr
    requires levels <= |p.siblings|
  {
    if levels == 0 then leaf
    else
      var below := PathRoot(d, p, leaf, levels - 1);
      if IsLeftChild(p.leafIndex, levels) then d.compress(below, p.siblings[levels - 1])
      else d.compress(p.siblings[levels - 1], below)
  }

  method ComputePathRoot(d: Digest, p: MerklePath, leaf: Fr) returns (current: Fr)
    ensures current == PathRoot(d, p, leaf, |p.siblings|)
  {
    current := leaf;
    for h := 0 to |p.siblings|
      invariant current == PathRoot(d, p, leaf, h)
    {
      if IsLeftChild(p.leafIndex, h + 1) {
        current := d.compress(current, p.siblings[h]);
      } else {
        current := d.compress(p.siblings[h], current);
      }
    }
  }

  predicate Verify(d: Digest, p: MerklePath, leaf: Fr, expectedRoot: Fr)
  {
    PathRoot(d, p, leaf, |p.siblings|) == expectedRoot
  }

  /** Every sibling of the path is the one its leaf has in the padded tree. */
  ghost predicate FollowsTree(d: Digest, leaves: seq<Fr>, p: MerklePath)
  {
    forall t :: 0 <= t < |p.siblings| ==> p.siblings[t] == Node(d, leaves, t + 1, Sibling(Shr(p.leafIndex, t)))
  }

  lemma {:induction false} PathClimbs(d: Digest, leaves: seq<Fr>, p: MerklePath, levels: nat)
    requires levels <= |p.siblings| && FollowsTree(d, leaves, p)
    ensures PathRoot(d, p, Node(d, leaves, 1, p.leafIndex), levels)
         == Node(d, leaves, levels + 1, Shr(p.leafIndex, levels))
  {
    if levels > 0 {
      PathClimbs(d, leaves, p, levels - 1);
      NodeOfChildren(d, leaves, levels, Shr(p.leafIndex, levels - 1));
    }
  }

  /** A path that follows the tree verifies its own leaf against the root. */
  lemma {:induction false} PathVerifies(d: Digest, maxHeight: nat, leaves: seq<Fr>, p: MerklePath)
    requires maxHeight >= 1 && p.leafIndex < |leaves| <= Capacity(maxHeight)
    requires |p.siblings| == maxHeight - 1 && FollowsTree(d, leaves, p)
    ensures Verify(d, p, leaves[p.leafIndex], Node(d, leaves, maxHeight, 0))
  {
    PathClimbs(d, leaves, p, maxHeight - 1);
    ShrBelow(p.leafIndex, maxHeight - 1);
  }

  // ---------------------------------------------------------------------------
  // Binding

  ghost predicate Collision(d: Digest)
  {
    exists a, b, a', b' :: (a != a' || b != b') && d.compress(a, b) == d.compress(a', b')
  }

  lemma {:induction false} BindingAt(d: Digest, leaves: seq<Fr>, p: MerklePath, leaf: Fr, levels: nat)
    requires levels <= |p.siblings|
    requires PathRoot(d, p, leaf, levels) == Node(d, leaves, levels + 1, Shr(p.leafIndex, levels))
    ensures Collision(d) || leaf == Node(d, leaves, 1, p.leafIndex)
  {
    if levels > 0 {
      var k := Shr(p.leafIndex, levels - 1);
      var below := PathRoot(d, p, leaf, levels - 1);
      NodeOfChildren(d, leaves, levels, k);
      var node, other := Node(d, leaves, levels, k), Node(d, leaves, levels, Sibling(k));
      var sibling := p.siblings[levels - 1];
      if below == node {
        BindingAt(d, leaves, p, leaf, levels - 1);
      } else if k % 2 == 0 {
        assert d.compress(below, sibling) == d.compress(node, other);
      } else {
        assert d.compress(sibling, below) == d.compress(other, node);
      }
    }
  }

  /** A path with the right number of siblings and an index below capacity
      verifies a value other than the padded leaf at its index only if the
      compression function has a collision. */
  lemma {:induction false} VerifiedLeafIsBound(d: Digest, maxHeight: nat, leaves: seq<Fr>, p: MerklePath, leaf: Fr)
    requires maxHeight >= 1 && |p.siblings| == maxHeight - 1
    requires p.leafIndex < Capacity(maxHeight) && |leaves| <= Capacity(maxHeight)
    requires Verify(d, p, leaf, Node(d, leaves, maxHeight, 0))
    ensures Collision(d) || leaf == Padded(d, leaves, Capacity(maxHeight))[p.leafIndex]
  {
    ShrBelow(p.leafIndex, maxHeight - 1);
    BindingAt(d, leaves, p, leaf, maxHeight - 1);
  }

  // ---------------------------------------------------------------------------
  // Patching

  /** The tracked path after leaf number `n` is appended: exactly one slot is
      assigned, the one at the height where the two leaves are siblings. */
  function Patched(d: Digest, after: seq<Fr>, n: nat, p: MerklePath): MerklePath
  {
    var h := SiblingHeight(n, p.leafIndex);
    if 1 <= h <= |p.siblings| then
      p.(siblings := p.siblings[h - 1 := Node(d, after, h, Shr(n, h - 1))])
    else p
  }

  /** The patch restricted to heights below `height`. */
  function PatchedBelow(d: Digest, after: seq<Fr>, n: nat, p: MerklePath, height: nat): MerklePath
  {
    if SiblingHeight(n, p.leafIndex) < height then Patched(d, after, n, p) else p
  }

  /** Patching keeps a tracked path on the tree as the tree grows. */
  lemma {:induction false} PatchedFollowsTree(d: Digest, leaves: seq<Fr>, x: Fr, p: MerklePath)
    requires p.leafIndex < |leaves| < Pow2(|p.siblings|) && FollowsTree(d, leaves, p)
    ensures FollowsTree(d, leaves + [x], Patched(d, leaves + [x], |leaves|, p))
  {
    var n, i := |leaves|, p.leafIndex;
    var patched := Patched(d, leaves + [x], n, p);
    SiblingHeightInRange(n, i, |p.siblings|);
    forall t | 0 <= t < |patched.siblings|
      ensures patched.siblings[t] == Node(d, leaves + [x], t + 1, Sibling(Shr(i, t)))
    {
      SiblingsAtExactlyOneHeight(n, i, t + 1);
      XorOne(Shr(i, t));
      if t + 1 != SiblingHeight(n, i) {
        NodeUnchangedByAppend(d, leaves, x, t + 1, Sibling(Shr(i, t)));
      }
    }
  }

  /** `life` is the life of one path: the first entry is what the push of leaf `i`
      returns, and every later push patches the entry before it. */
  ghost predicate PathLife(d: Digest, maxHeight: nat, pushes: seq<Fr>, i: nat, life: seq<MerklePath>)
  {
    && maxHeight >= 1 && life != [] && i + |life| <= |pushes| <= Capacity(maxHeight)
    && life[0].leafIndex == i && |life[0].siblings| == maxHeight - 1
    && FollowsTree(d, pushes[..i + 1], life[0])
    && forall j, k :: 0 <= j && k == j + 1 < |life| ==> life[k] == Patched(d, pushes[..i + k + 1], i + k, life[j])
  }

  lemma {:induction false} PathLifeNext(d: Digest, maxHeight: nat, pushes: seq<Fr>, n: nat, p: MerklePath)
    requires maxHeight >= 1 && p.leafIndex < n < |pushes| <= Capacity(maxHeight) && |p.siblings| == maxHeight - 1
    requires FollowsTree(d, pushes[..n], p)
    ensures FollowsTree(d, pushes[..n + 1], Patched(d, pushes[..n + 1], n, p))
  {
    assert pushes[..n + 1] == pushes[..n] + [pushes[n]];
    PatchedFollowsTree(d, pushes[..n], pushes[n], p);
  }

  lemma {:induction false} PathLifeStep(d: Digest, maxHeight: nat, pushes: seq<Fr>, i: nat, life: seq<MerklePath>,
                                        n: nat)
    requires PathLife(d, maxHeight, pushes, i, life) && i < n < i + |life|
    requires life[n - i - 1].leafIndex == i && |life[n - i - 1].siblings| == maxHeight - 1
    requires FollowsTree(d, pushes[..n], life[n - i - 1])
    ensures life[n - i].leafIndex == i && |life[n - i].siblings| == maxHeight - 1
    ensures FollowsTree(d, pushes[..n + 1], life[n - i])
  {
    PathLifeNext(d, maxHeight, pushes, n, life[n - i - 1]);
    assert life[n - i] == Patched(d, pushes[..n + 1], n, life[n - i - 1]) by {
      var j, k := n - i - 1, n - i;
      assert life[k] == Patched(d, pushes[..i + k + 1], i + k, life[j]);
    }
  }

  lemma {:induction false} PathLifeFollowsTree(d: Digest, maxHeight: nat, pushes: seq<Fr>, i: nat,
                                               life: seq<MerklePath>, j: nat)
    requires PathLife(d, maxHeight, pushes, i, life) && j < |life|
    ensures life[j].leafIndex == i && |life[j].siblings| == maxHeight - 1
    ensures FollowsTree(d, pushes[..i + j + 1], life[j])
  {
    for n := i + 1 to i + j + 1
      invariant life[n - i - 1].leafIndex == i && |life[n - i - 1].siblings| == maxHeight - 1
      invariant FollowsTree(d, pushes[..n], life[n - i - 1])
    {
      PathLifeStep(d, maxHeight, pushes, i, life, n);
    }
  }

  /** Over every sequence of pushes, a path kept up to date verifies its own leaf
      against the current root of the padded tree. */
  lemma {:induction false} TrackedPathAlwaysVerifies(d: Digest, maxHeight: nat, pushes: seq<Fr>, i: nat,
                                                     life: seq<MerklePath>, j: nat)
    requires PathLife(d, maxHeight, pushes, i, life) && j < |life|
    ensures Verify(d, life[j], pushes[i],
                   MerkleRoot(d, Padded(d, pushes[..i + j + 1], Capacity(maxHeight)), maxHeight))
  {
    PathLifeFollowsTree(d, maxHeight, pushes, i, life, j);
    PathVerifies(d, maxHeight, pushes[..i + j + 1], life[j]);
    RootIsMerkleRootOfPaddedLeaves(d, pushes[..i + j + 1], maxHeight);
  }

  // ---------------------------------------------------------------------------
  // push_with_paths

  /** The error for the first tracked path that does not belong to the range. */
  function FirstPathError(paths: seq<MerklePath>, maxHeight: nat, leafCount: nat): Option<PathError>
    requires maxHeight >= 1
  {
    if paths == [] then None
    else if |paths[0].siblings| != maxHeight - 1 then Some(InvalidSiblingCount(maxHeight - 1, |paths[0].siblings|))
    else if paths[0].leafIndex >= leafCount then Some(LeafIndexOutOfRange(paths[0].leafIndex, leafCount))
    else FirstPathError(paths[1..], maxHeight, leafCount)
  }

  predicate ValidPath(p: MerklePath, maxHeight: nat, leafCount: nat)
  {
    |p.siblings| + 1 == maxHeight && p.leafIndex < leafCount
  }

  lemma {:induction false} NoErrorExactlyWhenAllValid(paths: seq<MerklePath>, maxHeight: nat, leafCount: nat)
    requires maxHeight >= 1
    ensures FirstPathError(paths, maxHeight, leafCount).None?
       <==> forall j :: 0 <= j < |paths| ==> ValidPath(paths[j], maxHeight, leafCount)
  {
    if paths != [] {
      NoErrorExactlyWhenAllValid(paths[1..], maxHeight, leafCount);
      assert paths == [paths[0]] + paths[1..];
    }
  }

  /** The error names the first invalid path: its number of siblings if that is wrong,
      otherwise its leaf index. */
  lemma {:induction false} ErrorNamesFirstInvalid(paths: seq<MerklePath>, maxHeight: nat, leafCount: nat, j: nat)
    requires maxHeight >= 1 && j < |paths| && !ValidPath(paths[j], maxHeight, leafCount)
    requires forall i :: 0 <= i < j ==> ValidPath(paths[i], maxHeight, leafCount)
    ensures FirstPathError(paths, maxHeight, leafCount) == Some(
      if |paths[j].siblings| + 1 != maxHeight then InvalidSiblingCount(maxHeight - 1, |paths[j].siblings|)
      else LeafIndexOutOfRange(paths[j].leafIndex, leafCount))
    decreases j
  {
    if j > 0 {
      assert ValidPath(paths[0], maxHeight, leafCount);
      assert forall i :: 0 <= i < j - 1 ==> paths[1..][i] == paths[i + 1];
      ErrorNamesFirstInvalid(paths[1..], maxHeight, leafCount, j - 1);
    }
  }

  method ValidatePaths(paths: array<MerklePath>, maxHeight: nat, leafCount: nat) returns (e: Option<PathError>)
    requires maxHeight >= 1
    ensures e == FirstPathError(paths[..], maxHeight, leafCount)
  {
    for j := 0 to paths.Length
      invariant FirstPathError(paths[..], maxHeight, leafCount) == FirstPathError(paths[j..], maxHeight, leafCount)
    {
      assert paths[j..][1..] == paths[j + 1..];
      if |paths[j].siblings| != maxHeight - 1 {
        return Some(InvalidSiblingCount(maxHeight - 1, |paths[j].siblings|));
      }
      if paths[j].leafIndex >= leafCount {
        return Some(LeafIndexOutOfRange(paths[j].leafIndex, leafCount));
      }
    }
    e := None;
  }

  /** Whether the paths are those of `was` patched at heights below `height`. */
  ghost predicate AllPatchedBelow(d: Digest, after: seq<Fr>, n: nat, was: seq<MerklePath>, now: seq<MerklePath>,
                                  height: nat)
  {
    |now| == |was| && forall j :: 0 <= j < |was| ==> now[j] == PatchedBelow(d, after, n, was[j], height)
  }

  /** At a merge, `right` is the sibling subtree of every tracked leaf on the left
      and `left` the sibling subtree of the new leaf. */
  method UpdatePathsAtMerge(d: Digest, right: Root, left: Root, paths: array<MerklePath>, newPath: MerklePath,
                            ghost after: seq<Fr>, ghost was: seq<MerklePath>)
    returns (newPath': MerklePath)
    requires left.height == right.height
    requires 1 <= right.height <= |newPath.siblings|
    requires right.root == Node(d, after, right.height, Shr(newPath.leafIndex, right.height - 1))
    requires forall j :: 0 <= j < |was| ==> ValidPath(was[j], |newPath.siblings| + 1, newPath.leafIndex)
    requires AllPatchedBelow(d, after, newPath.leafIndex, was, paths[..], right.height)
    modifies paths
    ensures AllPatchedBelow(d, after, newPath.leafIndex, was, paths[..], right.height + 1)
    ensures newPath' == newPath.(siblings := newPath.siblings[right.height - 1 := left.root])
  {
    var height := right.height;
    var n := newPath.leafIndex;
    for j := 0 to paths.Length
      invariant forall i :: 0 <= i < j ==> paths[i] == PatchedBelow(d, after, n, was[i], height + 1)
      invariant forall i :: j <= i < paths.Length ==> paths[i] == PatchedBelow(d, after, n, was[i], height)
    {
      assert ValidPath(was[j], |newPath.siblings| + 1, n);
      SiblingsAtExactlyOneHeight(n, was[j].leafIndex, height);
      assert paths[j].leafIndex == was[j].leafIndex && |paths[j].siblings| == |was[j].siblings|;
      if AreSiblingsAt(n, paths[j].leafIndex, height) {
        paths[j] := paths[j].(siblings := paths[j].siblings[height - 1 := right.root]);
      }
    }
    newPath' := newPath.(siblings := newPath.siblings[height - 1 := left.root]);
  }

  /** The new path is final below `height`. */
  ghost predicate NewPathBelow(d: Digest, after: seq<Fr>, maxHeight: nat, n: nat, newPath: MerklePath, height: nat)
  {
    && 1 <= height <= maxHeight
    && newPath.leafIndex == n
    && |newPath.siblings| == maxHeight - 1
    && forall t :: 0 <= t < height - 1 ==> newPath.siblings[t] == Node(d, after, t + 1, Sibling(Shr(n, t)))
  }

  lemma {:induction false} NewPathStep(d: Digest, after: seq<Fr>, maxHeight: nat, n: nat, newPath: MerklePath,
                                       height: nat, sibling: Fr)
    requires NewPathBelow(d, after, maxHeight, n, newPath, height) && height < maxHeight
    requires sibling == Node(d, after, height, Sibling(Shr(n, height - 1)))
    ensures NewPathBelow(d, after, maxHeight, n,
                         newPath.(siblings := newPath.siblings[height - 1 := sibling]), height + 1)
  {
  }

  /** The subtree hashes of the new leaf from height `from` upwards. */
  ghost predicate SubtreeHashes(d: Digest, after: seq<Fr>, n: nat, from: nat, hashes: seq<Fr>)
  {
    from >= 1 && forall t :: 0 <= t < |hashes| ==> hashes[t] == Node(d, after, from + t, Shr(n, from + t - 1))
  }

  /** One level of the walk: the new leaf's sibling at this height is an empty subtree
      or the next peak, which exists, and the walk goes on above it. */
  lemma {:induction false} CompleteNext(d: Digest, leaves: seq<Fr>, x: Fr, maxHeight: nat, newPath: MerklePath,
                                        height: nat, hash: Fr, peaks: seq<Root>)
    requires NewPathBelow(d, leaves + [x], maxHeight, |leaves|, newPath, height) && height < maxHeight
    requires Climbing(d, leaves, x, height, hash, peaks)
    ensures !IsLeftChild(|leaves|, height) ==> peaks != []
    ensures var left := IsLeftChild(|leaves|, height);
      var sibling := if left then EmptyRoot(d, height) else peaks[0].root;
      && NewPathBelow(d, leaves + [x], maxHeight, |leaves|,
                      newPath.(siblings := newPath.siblings[height - 1 := sibling]), height + 1)
      && Climbing(d, leaves, x, height + 1, if left then d.compress(hash, sibling) else d.compress(sibling, hash),
                  if left then peaks else peaks[1..])
  {
    ClimbNext(d, leaves, x, height, hash, peaks);
    NewPathStep(d, leaves + [x], maxHeight, |leaves|, newPath, height,
                if IsLeftChild(|leaves|, height) then EmptyRoot(d, height) else peaks[0].root);
  }

  /** The walk has reached `height`, with the subtree hashes from height `from` on. */
  ghost predicate Completing(d: Digest, leaves: seq<Fr>, x: Fr, maxHeight: nat, from: nat, height: nat,
                             newPath: MerklePath, hash: Fr, peaks: seq<Root>, hashes: seq<Fr>)
  {
    && NewPathBelow(d, leaves + [x], maxHeight, |leaves|, newPath, height)
    && Climbing(d, leaves, x, height, hash, peaks)
    && |hashes| == height - from && SubtreeHashes(d, leaves + [x], |leaves|, from, hashes)
  }

  /** One round of the walk. */
  method CompleteLevel(d: Digest, maxHeight: nat, ghost from: nat, height: nat, newPath: MerklePath, hash: Fr,
                       peaks: seq<Root>, hashes: seq<Fr>, ghost leaves: seq<Fr>, ghost x: Fr)
    returns (newPath': MerklePath, hash': Fr, peaks': seq<Root>, hashes': seq<Fr>)
    requires Completing(d, leaves, x, maxHeight, from, height, newPath, hash, peaks, hashes) && height < maxHeight
    ensures Completing(d, leaves, x, maxHeight, from, height + 1, newPath', hash', peaks', hashes')
  {
    CompleteNext(d, leaves, x, maxHeight, newPath, height, hash, peaks);
    MoreSubtreeHashes(d, leaves + [x], |leaves|, from, hashes, hash);
    hashes' := hashes + [hash];
    if IsLeftChild(newPath.leafIndex, height) {
      var empty := EmptyRoot(d, height);
      newPath' := newPath.(siblings := newPath.siblings[height - 1 := empty]);
      hash', peaks' := d.compress(hash, empty), peaks;
    } else {
      var left := peaks[0];  // never underflows
      newPath' := newPath.(siblings := newPath.siblings[height - 1 := left.root]);
      hash', peaks' := d.compress(left.root, hash), peaks[1..];
    }
  }

  /** Walks from the merge point to the root, computing the subtree of the new
      leaf at every height; the stack of peaks never underflows. */
  method CompleteNewPath(d: Digest, maxHeight: nat, merged: Root, remaining: seq<Root>, newPath: MerklePath,
                         ghost leaves: seq<Fr>, ghost x: Fr)
    returns (newPath': MerklePath, hashes: seq<Fr>)
    requires NewPathBelow(d, leaves + [x], maxHeight, |leaves|, newPath, merged.height)
    requires merged.root == Node(d, leaves + [x], merged.height, Shr(|leaves|, merged.height - 1))
    requires remaining == Peaks(d, leaves, merged.height, Shr(|leaves|, merged.height - 1))
    ensures NewPathBelow(d, leaves + [x], maxHeight, |leaves|, newPath', maxHeight)
    ensures |hashes| == maxHeight - merged.height && SubtreeHashes(d, leaves + [x], |leaves|, merged.height, hashes)
  {
    var hash, peaks := merged.root, remaining;
    newPath', hashes := newPath, [];
    for height := merged.height to maxHeight
      invariant Completing(d, leaves, x, maxHeight, merged.height, height, newPath', hash, peaks, hashes)
    {
      newPath', hash, peaks, hashes :=
        CompleteLevel(d, maxHeight, merged.height, height, newPath', hash, peaks, hashes, leaves, x);
    }
  }

  lemma {:induction false} MoreSubtreeHashes(d: Digest, after: seq<Fr>, n: nat, from: nat, hashes: seq<Fr>, hash: Fr)
    requires SubtreeHashes(d, after, n, from, hashes)
    requires hash == Node(d, after, from + |hashes|, Shr(n, from + |hashes| - 1))
    ensures SubtreeHashes(d, after, n, from, hashes + [hash])
  {
  }

  /** Updates each path at its unique sibling height above the merge point. */
  method UpdatePathsAboveMerge(d: Digest, maxHeight: nat, mergedHeight: nat, hashes: seq<Fr>, paths: array<MerklePath>,
                               n: nat, ghost after: seq<Fr>, ghost was: seq<MerklePath>)
    requires 1 <= mergedHeight <= maxHeight && n < Capacity(maxHeight)
    requires |hashes| == maxHeight - mergedHeight && SubtreeHashes(d, after, n, mergedHeight, hashes)
    requires forall j :: 0 <= j < |was| ==> ValidPath(was[j], maxHeight, n)
    requires AllPatchedBelow(d, after, n, was, paths[..], mergedHeight)
    modifies paths
    ensures AllPatchedBelow(d, after, n, was, paths[..], maxHeight)
  {
    for j := 0 to paths.Length
      invariant forall i :: 0 <= i < j ==> paths[i] == PatchedBelow(d, after, n, was[i], maxHeight)
      invariant forall i :: j <= i < paths.Length ==> paths[i] == PatchedBelow(d, after, n, was[i], mergedHeight)
    {
      assert ValidPath(was[j], maxHeight, n);
      assert paths[j].leafIndex == was[j].leafIndex && |paths[j].siblings| == |was[j].siblings|;
      SiblingHeightInRange(n, was[j].leafIndex, maxHeight - 1);
      var h := SiblingHeight(n, paths[j].leafIndex);
      if mergedHeight <= h < maxHeight {
        paths[j] := paths[j].(siblings := paths[j].siblings[h - 1 := hashes[h - mergedHeight]]);
      }
    }
  }

  function InitialPath(d: Digest, maxHeight: nat, leafIndex: nat): (p: MerklePath)
    requires maxHeight >= 1
    ensures p.leafIndex == leafIndex && |p.siblings| == maxHeight - 1
    ensures forall h :: 0 <= h < maxHeight - 1 ==> p.siblings[h] == EmptyRoot(d, h + 1)
  {
    MerklePath(leafIndex, seq(maxHeight - 1, h requires 0 <= h < maxHeight - 1 => EmptyRoot(d, h + 1)))
  }

  /** Phase 1: merge the peaks that have the height of the carried subtree,
      updating the sibling at each merge height. */
  method MergePeaks(d: Digest, m: Mmr, elem: Fr, paths: array<MerklePath>, newPath: MerklePath, ghost leaves: seq<Fr>)
    returns (lastRoot: Root, roots: seq<Root>, newPath': MerklePath)
    requires Holds(d, m, leaves) && |leaves| < Capacity(m.maxHeight)
    requires newPath.leafIndex == |leaves| && |newPath.siblings| == m.maxHeight - 1
    requires forall j :: 0 <= j < paths.Length ==> ValidPath(paths[j], m.maxHeight, |leaves|)
    modifies paths
    ensures lastRoot.height >= 1 && Carried(|leaves|, lastRoot.height - 1)
    ensures roots == Peaks(d, leaves, lastRoot.height, Shr(|leaves|, lastRoot.height - 1))
    ensures lastRoot.root == Node(d, leaves + [elem], lastRoot.height, Shr(|leaves|, lastRoot.height - 1))
    ensures !(roots != [] && roots[0].height == lastRoot.height)
    ensures NewPathBelow(d, leaves + [elem], m.maxHeight, |leaves|, newPath', lastRoot.height)
    ensures AllPatchedBelow(d, leaves + [elem], |leaves|, old(paths[..]), paths[..], lastRoot.height)
  {
    ghost var was, after, n := paths[..], leaves + [elem], |leaves|;
    NothingPatchedBelowOne(d, after, n, was, m.maxHeight);
    lastRoot, roots, newPath' := Root(elem, 1), m.roots, newPath;
    while roots != [] && roots[0].height == lastRoot.height
      invariant Merging(d, leaves, elem, m.maxHeight, lastRoot, roots)
      invariant NewPathBelow(d, after, m.maxHeight, n, newPath', lastRoot.height)
      invariant AllPatchedBelow(d, after, n, was, paths[..], lastRoot.height)
      decreases |roots|
    {
      MergeNext(d, leaves, elem, m.maxHeight, lastRoot, roots);
      NewPathStep(d, after, m.maxHeight, n, newPath', lastRoot.height, roots[0].root);
      newPath' := UpdatePathsAtMerge(d, lastRoot, roots[0], paths, newPath', after, was);
      lastRoot, roots := Root(d.compress(roots[0].root, lastRoot.root), lastRoot.height + 1), roots[1..];
    }
  }

  /** The append itself, once every tracked path is known to belong. */
  method AppendAndPatch(d: Digest, m: Mmr, elem: Fr, paths: array<MerklePath>, ghost leaves: seq<Fr>)
    returns (mmr: Mmr, newPath: MerklePath)
    requires Holds(d, m, leaves) && |leaves| < Capacity(m.maxHeight)
    requires forall j :: 0 <= j < paths.Length ==> ValidPath(paths[j], m.maxHeight, |leaves|)
    modifies paths
    ensures mmr.maxHeight == m.maxHeight && Holds(d, mmr, leaves + [elem])
    ensures NewPathBelow(d, leaves + [elem], m.maxHeight, |leaves|, newPath, m.maxHeight)
    ensures forall j :: 0 <= j < paths.Length ==> paths[j] == Patched(d, leaves + [elem], |leaves|, old(paths[j]))
  {
    ghost var was, after := paths[..], leaves + [elem];
    var n := Len(d, m, leaves);
    newPath := InitialPath(d, m.maxHeight, n);
    var lastRoot, roots, hashes;
    lastRoot, roots, newPath := MergePeaks(d, m, elem, paths, newPath, leaves);
    newPath, hashes := CompleteNewPath(d, m.maxHeight, lastRoot, roots, newPath, leaves, elem);
    UpdatePathsAboveMerge(d, m.maxHeight, lastRoot.height, hashes, paths, newPath.leafIndex, after, was);
    PatchedBelowMaxIsPatched(d, after, n, was, paths[..], m.maxHeight);
    PushedPeaks(d, leaves, elem, lastRoot.height);
    mmr := Mmr(m.maxHeight, [lastRoot] + roots);
  }

  /** Fails without touching a path when the range is full or a tracked path does
      not belong to it. Otherwise the new range is the one `push` gives, the new
      path is that of the pushed leaf in the grown tree, and every tracked path
      has exactly its one sibling slot assigned. */
  method PushWithPaths(d: Digest, m: Mmr, elem: Fr, paths: array<MerklePath>, ghost leaves: seq<Fr>)
    returns (r: Result<(Mmr, MerklePath), PushError>)
    requires Holds(d, m, leaves)
    modifies paths
    ensures |leaves| == Capacity(m.maxHeight) ==> r == Err(Full)
    ensures |leaves| < Capacity(m.maxHeight) ==>
      match FirstPathError(old(paths[..]), m.maxHeight, |leaves|)
      case Some(e) => r == Err(InvalidTrackedPath(e))
      case None =>
        && r.Ok?
        && r.value.0.maxHeight == m.maxHeight
        && Holds(d, r.value.0, leaves + [elem])
        && ValidPath(r.value.1, m.maxHeight, |leaves| + 1) && r.value.1.leafIndex == |leaves|
        && FollowsTree(d, leaves + [elem], r.value.1)
        && forall j :: 0 <= j < paths.Length ==> paths[j] == Patched(d, leaves + [elem], |leaves|, old(paths[j]))
    ensures r.Err? ==> paths[..] == old(paths[..])
  {
    FullExactlyAtCapacity(d, m, leaves);
    if m.roots != [] && m.roots[0].height == m.maxHeight {
      return Err(Full);
    }
    var len := Len(d, m, leaves);
    var invalid := ValidatePaths(paths, m.maxHeight, len);
    if invalid.Some? {
      return Err(InvalidTrackedPath(invalid.value));
    }
    NoErrorExactlyWhenAllValid(paths[..], m.maxHeight, |leaves|);
    var mmr, newPath := AppendAndPatch(d, m, elem, paths, leaves);
    r := Ok((mmr, newPath));
  }

  lemma {:induction false} NothingPatchedBelowOne(d: Digest, after: seq<Fr>, n: nat, was: seq<MerklePath>,
                                                  maxHeight: nat)
    requires maxHeight >= 1 && n < Capacity(maxHeight)
    requires forall j :: 0 <= j < |was| ==> ValidPath(was[j], maxHeight, n)
    ensures AllPatchedBelow(d, after, n, was, was, 1)
  {
    forall j | 0 <= j < |was| ensures was[j] == PatchedBelow(d, after, n, was[j], 1) {
      assert ValidPath(was[j], maxHeight, n);
      SiblingHeightInRange(n, was[j].leafIndex, maxHeight - 1);
    }
  }

  lemma {:induction false} PatchedBelowMaxIsPatched(d: Digest, after: seq<Fr>, n: nat, was: seq<MerklePath>,
                                                    now: seq<MerklePath>, maxHeight: nat)
    requires maxHeight >= 1 && n < Capacity(maxHeight)
    requires forall j :: 0 <= j < |was| ==> ValidPath(was[j], maxHeight, n)
    requires AllPatchedBelow(d, after, n, was, now, maxHeight)
    ensures forall j :: 0 <= j < |was| ==> now[j] == Patched(d, after, n, was[j])
  {
    forall j | 0 <= j < |was| ensures now[j] == Patched(d, after, n, was[j]) {
      assert ValidPath(was[j], maxHeight, n);
      SiblingHeightInRange(n, was[j].leafIndex, maxHeight - 1);
    }
  }
}
