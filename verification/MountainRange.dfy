/** The append-only Merkle Mountain Range: `push`, `frontier_root` and `len`. */
module MountainRange {
  import opened Wrappers
  import opened Bits
  import opened MerkleTree

  const ACCEPTABLE_MAX_HEIGHT: nat := 33

  datatype Root = Root(root: Fr, height: nat)

  /** The peaks, the top of the stack first. The value is persistent: a push
      yields a new one. */
  datatype Mmr = Mmr(maxHeight: nat, roots: seq<Root>)

  datatype MmrFull = MmrFull

  predicate AcceptableHeight(height: nat)
  {
    1 <= height <= ACCEPTABLE_MAX_HEIGHT
  }

  function Capacity(maxHeight: nat): nat
    requires maxHeight >= 1
  {
    Pow2(maxHeight - 1)
  }

  // ---------------------------------------------------------------------------
  // Specification

  /** The peaks over the first `q` complete subtrees of the given height: a peak
      for every set bit of `q`, the lowest bit first. */
  function Peaks(d: Digest, leaves: seq<Fr>, height: nat, q: nat): seq<Root>
    requires height >= 1
    decreases q
  {
    if q == 0 then []
    else if q % 2 == 1 then
      [Root(Node(d, leaves, height, q - 1), height)] + Peaks(d, leaves, height + 1, q / 2)
    else
      Peaks(d, leaves, height + 1, q / 2)
  }

  /** The mountain range that holds exactly `leaves`. */
  function MmrOf(d: Digest, maxHeight: nat, leaves: seq<Fr>): Mmr
  {
    Mmr(maxHeight, Peaks(d, leaves, 1, |leaves|))
  }

  /** `m` was built from `leaves`, and they fit. */
  predicate Holds(d: Digest, m: Mmr, leaves: seq<Fr>)
  {
    AcceptableHeight(m.maxHeight) && |leaves| <= Capacity(m.maxHeight) && m == MmrOf(d, m.maxHeight, leaves)
  }

  // ---------------------------------------------------------------------------
  // Properties of the peaks

  /** A peak of height `g` exists exactly when the bit of weight `2^(g-1)` of the
      leaf count is set, and it is the root of the last complete subtree of its
      height. */
  lemma {:induction false} PeakExistsExactlyAtSetBits(d: Digest, leaves: seq<Fr>, height: nat, q: nat, g: nat)
    requires 1 <= height <= g
    ensures Shr(q, g - height) % 2 == 1
       <==> exists r :: r in Peaks(d, leaves, height, q) && r.height == g
    ensures forall r :: r in Peaks(d, leaves, height, q) && r.height == g
              ==> Shr(q, g - height) >= 1 && r.root == Node(d, leaves, g, Shr(q, g - height) - 1)
    decreases q
  {
    PeakHeights(d, leaves, height, q);
    if q == 0 {
      ShrBelow(0, g - height);
    } else if g == height {
      PeakHeights(d, leaves, height + 1, q / 2);
      if q % 2 == 1 {
        assert Peaks(d, leaves, height, q)[0].height == g;
      }
    } else {
      ShrHalf(q, g - height - 1);
      PeakExistsExactlyAtSetBits(d, leaves, height + 1, q / 2, g);
      var rest := Peaks(d, leaves, height + 1, q / 2);
      assert forall r: Root :: r.height == g ==> (r in Peaks(d, leaves, height, q) <==> r in rest);
    }
  }

  lemma {:induction false} PeakHeights(d: Digest, leaves: seq<Fr>, height: nat, q: nat)
    requires height >= 1
    ensures forall i :: 0 <= i < |Peaks(d, leaves, height, q)| ==> Peaks(d, leaves, height, q)[i].height >= height
    decreases q
  {
    if q > 0 {
      PeakHeights(d, leaves, height + 1, q / 2);
    }
  }

  /** The top of the stack has height `height` exactly when the bit is set. */
  lemma {:induction false} TopPeak(d: Digest, leaves: seq<Fr>, height: nat, q: nat)
    requires height >= 1
    ensures q % 2 == 1 <==> Peaks(d, leaves, height, q) != [] && Peaks(d, leaves, height, q)[0].height == height
    ensures q > 0 ==> Peaks(d, leaves, height, q) != []
    decreases q
  {
    if q > 0 {
      PeakHeights(d, leaves, height + 1, q / 2);
      TopPeak(d, leaves, height + 1, q / 2);
    }
  }

  /** No peak is higher than the leaf count allows. */
  lemma {:induction false} PeaksBelow(d: Digest, leaves: seq<Fr>, height: nat, q: nat, bits: nat)
    requires height >= 1 && q < Pow2(bits)
    ensures forall i :: 0 <= i < |Peaks(d, leaves, height, q)| ==> Peaks(d, leaves, height, q)[i].height < height + bits
    decreases q
  {
    if q > 0 {
      PeaksBelow(d, leaves, height + 1, q / 2, bits - 1);
    }
  }

  lemma {:induction false} PeaksOfPow2(d: Digest, leaves: seq<Fr>, height: nat, bits: nat)
    requires height >= 1
    ensures Peaks(d, leaves, height, Pow2(bits)) == [Root(Node(d, leaves, height + bits, 0), height + bits)]
    decreases bits
  {
    if bits > 0 {
      PeaksOfPow2(d, leaves, height + 1, bits - 1);
    }
  }

  /** The test that `push` makes on the top peak detects a full range. */
  lemma {:induction false} FullExactlyAtCapacity(d: Digest, m: Mmr, leaves: seq<Fr>)
    requires Holds(d, m, leaves)
    ensures (m.roots != [] && m.roots[0].height == m.maxHeight) <==> |leaves| == Capacity(m.maxHeight)
  {
    if |leaves| == Capacity(m.maxHeight) {
      PeaksOfPow2(d, leaves, 1, m.maxHeight - 1);
    } else {
      PeaksBelow(d, leaves, 1, |leaves|, m.maxHeight - 1);
    }
  }

  /** Complete subtrees keep their roots when a leaf is appended. */
  lemma {:induction false} PeaksUnchangedByAppend(d: Digest, leaves: seq<Fr>, x: Fr, height: nat, q: nat)
    requires height >= 1 && q <= Shr(|leaves|, height - 1)
    ensures Peaks(d, leaves + [x], height, q) == Peaks(d, leaves, height, q)
    decreases q
  {
    if q > 0 {
      NodeUnchangedByAppend(d, leaves, x, height, q - 1);
      PeaksUnchangedByAppend(d, leaves, x, height + 1, q / 2);
    }
  }

  /** The carry: while the low bits of `n` are ones, the low bits of `n + 1` are
      zeros and carry no peak. */
  ghost predicate Carried(n: nat, k: nat)
  {
    k == 0 || (Carried(n, k - 1) && Shr(n, k - 1) % 2 == 1)
  }

  lemma {:induction false} PeaksAfterCarry(d: Digest, leaves: seq<Fr>, n: nat, k: nat)
    requires Carried(n, k)
    ensures Peaks(d, leaves, 1, n + 1) == Peaks(d, leaves, 1 + k, Shr(n, k) + 1)
  {
    if k > 0 {
      PeaksAfterCarry(d, leaves, n, k - 1);
    }
  }

  // ---------------------------------------------------------------------------
  // Operations

  method New(maxHeight: nat, ghost d: Digest) returns (m: Mmr)
    requires AcceptableHeight(maxHeight)
    ensures Holds(d, m, []) && m.maxHeight == maxHeight
  {
    m := Mmr(maxHeight, []);
  }

  /** Fails exactly when the range is full; otherwise the result holds one more
      leaf. The height assertion in the loop is proved. */
  method Push(d: Digest, m: Mmr, elem: Fr, ghost leaves: seq<Fr>) returns (r: Result<Mmr, MmrFull>)
    requires Holds(d, m, leaves)
    ensures r.Err? <==> |leaves| == Capacity(m.maxHeight)
    ensures r.Ok? ==> r.value.maxHeight == m.maxHeight && Holds(d, r.value, leaves + [elem])
  {
    FullExactlyAtCapacity(d, m, leaves);
    if m.roots != [] && m.roots[0].height == m.maxHeight {
      return Err(MmrFull.MmrFull);
    }
    var lastRoot := Root(elem, 1);
    var roots := m.roots;
    assert Merging(d, leaves, elem, m.maxHeight, lastRoot, roots);
    while roots != [] && roots[0].height == lastRoot.height
      invariant Merging(d, leaves, elem, m.maxHeight, lastRoot, roots)
      decreases |roots|
    {
      MergeNext(d, leaves, elem, m.maxHeight, lastRoot, roots);
      lastRoot, roots := Root(d.compress(roots[0].root, lastRoot.root), lastRoot.height + 1), roots[1..];
      assert lastRoot.height <= m.maxHeight;  // the assertion of the source
    }
    PushedPeaks(d, leaves, elem, lastRoot.height);
    r := Ok(Mmr(m.maxHeight, [lastRoot] + roots));
  }

  /** While an append merges peaks: `carried` is the subtree of the new leaf and
      `roots` are the peaks to its left. */
  ghost predicate Merging(d: Digest, leaves: seq<Fr>, x: Fr, maxHeight: nat, carried: Root, roots: seq<Root>)
  {
    && 1 <= carried.height <= maxHeight && |leaves| < Capacity(maxHeight)
    && Carried(|leaves|, carried.height - 1)
    && roots == Peaks(d, leaves, carried.height, Shr(|leaves|, carried.height - 1))
    && carried.root == Node(d, leaves + [x], carried.height, Shr(|leaves|, carried.height - 1))
  }

  lemma {:induction false} MergeNext(d: Digest, leaves: seq<Fr>, x: Fr, maxHeight: nat, carried: Root, roots: seq<Root>)
    requires Merging(d, leaves, x, maxHeight, carried, roots) && roots != [] && roots[0].height == carried.height
    ensures carried.height < maxHeight
    ensures roots[0].root == Node(d, leaves + [x], carried.height, Sibling(Shr(|leaves|, carried.height - 1)))
    ensures Merging(d, leaves, x, maxHeight, Root(d.compress(roots[0].root, carried.root), carried.height + 1),
                    roots[1..])
  {
    MergeStep(d, leaves, x, carried.height);
    AboveTopIsZero(|leaves|, carried.height, maxHeight);
  }

  /** One merge: when the top peak has the height of the carried subtree, their
      combination is the carried subtree one level up. */
  lemma {:induction false} MergeStep(d: Digest, leaves: seq<Fr>, x: Fr, height: nat)
    requires height >= 1
    ensures var q := Shr(|leaves|, height - 1); var peaks := Peaks(d, leaves, height, q);
      peaks != [] && peaks[0].height == height ==>
        && q % 2 == 1
        && peaks[0].root == Node(d, leaves + [x], height, q - 1)
        && peaks[1..] == Peaks(d, leaves, height + 1, Shr(|leaves|, height))
        && d.compress(peaks[0].root, Node(d, leaves + [x], height, q))
             == Node(d, leaves + [x], height + 1, Shr(|leaves|, height))
  {
    var q := Shr(|leaves|, height - 1);
    TopPeak(d, leaves, height, q);
    if q % 2 == 1 {
      NodeUnchangedByAppend(d, leaves, x, height, q - 1);
    }
  }

  lemma {:induction false} AboveTopIsZero(n: nat, height: nat, maxHeight: nat)
    requires height >= 1 && maxHeight >= 1 && n < Pow2(maxHeight - 1)
    ensures Shr(n, height - 1) % 2 == 1 ==> height < maxHeight
  {
    if height >= maxHeight {
      ShrMonotone(n, maxHeight - 1, height - 1);
      ShrBelow(n, maxHeight - 1);
    }
  }

  lemma {:induction false} ShrMonotone(n: nat, j: nat, k: nat)
    requires j <= k
    ensures Shr(n, k) <= Shr(n, j)
  {
    if j < k {
      ShrMonotone(n, j, k - 1);
    }
  }

  /** When the top peak differs in height, the carried subtree is the new peak. */
  lemma {:induction false} PushedPeaks(d: Digest, leaves: seq<Fr>, x: Fr, height: nat)
    requires height >= 1 && Carried(|leaves|, height - 1)
    ensures var q := Shr(|leaves|, height - 1); var peaks := Peaks(d, leaves, height, q);
      !(peaks != [] && peaks[0].height == height) ==>
        Peaks(d, leaves + [x], 1, |leaves| + 1) == [Root(Node(d, leaves + [x], height, q), height)] + peaks
  {
    var q := Shr(|leaves|, height - 1);
    TopPeak(d, leaves, height, q);
    if q % 2 == 0 {
      PeaksAfterCarry(d, leaves + [x], |leaves|, height - 1);
      assert (q + 1) / 2 == q / 2 && Shr(|leaves|, height) == q / 2;
      PeaksUnchangedByAppend(d, leaves, x, height + 1, q / 2);
      assert Peaks(d, leaves, height, q) == Peaks(d, leaves, height + 1, q / 2);
    }
  }

  /** One level of the walk from a subtree to the root: an odd subtree has the
      next peak on its left, an even one an empty subtree on its right. */
  lemma {:induction false} WalkUp(d: Digest, leaves: seq<Fr>, base: seq<Fr>, height: nat, k: nat)
    requires height >= 1 && leaves != [] && k == Shr(|leaves| - 1, height - 1)
    requires base == leaves || base == leaves[..|leaves| - 1]
    ensures k % 2 == 1 ==>
      && Peaks(d, base, height, k) == [Root(Node(d, leaves, height, k - 1), height)] + Peaks(d, base, height + 1, k / 2)
      && Node(d, leaves, height + 1, k / 2) == d.compress(Node(d, leaves, height, k - 1), Node(d, leaves, height, k))
    ensures k % 2 == 0 ==>
      && Peaks(d, base, height, k) == Peaks(d, base, height + 1, k / 2)
      && Node(d, leaves, height, k + 1) == EmptyRoot(d, height)
      && Node(d, leaves, height + 1, k / 2) == d.compress(Node(d, leaves, height, k), EmptyRoot(d, height))
  {
    if k % 2 == 0 {
      NodeBeyondLeaves(d, leaves, height, k + 1);
    } else if base != leaves {
      assert leaves == base + [leaves[|leaves| - 1]];
      NodeUnchangedByAppend(d, base, leaves[|leaves| - 1], height, k - 1);
    }
  }

  /** While the path of the new leaf is completed: its subtree at `height` and the
      peaks that are still to its left. */
  ghost predicate Climbing(d: Digest, leaves: seq<Fr>, x: Fr, height: nat, hash: Fr, peaks: seq<Root>)
  {
    && height >= 1
    && hash == Node(d, leaves + [x], height, Shr(|leaves|, height - 1))
    && peaks == Peaks(d, leaves, height, Shr(|leaves|, height - 1))
  }

  lemma {:induction false} ClimbNext(d: Digest, leaves: seq<Fr>, x: Fr, height: nat, hash: Fr, peaks: seq<Root>)
    requires Climbing(d, leaves, x, height, hash, peaks)
    ensures var sibling := Node(d, leaves + [x], height, Sibling(Shr(|leaves|, height - 1)));
      if IsLeftChild(|leaves|, height) then
        EmptyRoot(d, height) == sibling && Climbing(d, leaves, x, height + 1, d.compress(hash, sibling), peaks)
      else
        && peaks != [] && peaks[0].root == sibling
        && Climbing(d, leaves, x, height + 1, d.compress(sibling, hash), peaks[1..])
  {
    var after := leaves + [x];
    assert after[..|after| - 1] == leaves;
    WalkUp(d, after, leaves, height, Shr(|leaves|, height - 1));
  }

  /** The lowest peak is the last non-empty subtree of its height, and the peaks
      below it on the stack are those to its left. */
  lemma {:induction false} LowestPeak(d: Digest, leaves: seq<Fr>, height: nat, q: nat)
    requires height >= 1 && q > 0
    ensures var peaks := Peaks(d, leaves, height, q);
      && peaks != []
      && peaks[0].height >= height
      && var k := Shr(q - 1, peaks[0].height - height);
         peaks[0].root == Node(d, leaves, peaks[0].height, k) && peaks[1..] == Peaks(d, leaves, peaks[0].height, k)
    decreases q
  {
    if q % 2 == 1 {
      assert Peaks(d, leaves, height, q)[1..] == Peaks(d, leaves, height + 1, q / 2);
    } else {
      LowestPeak(d, leaves, height + 1, q / 2);
      ShrHalf(q - 1, Peaks(d, leaves, height, q)[0].height - height - 1);
    }
  }

  lemma {:induction false} LastSubtreeWithinHeight(d: Digest, leaves: seq<Fr>, maxHeight: nat)
    requires maxHeight >= 1 && leaves != [] && |leaves| <= Pow2(maxHeight - 1)
    ensures Peaks(d, leaves, 1, |leaves|) != [] && Peaks(d, leaves, 1, |leaves|)[0].height <= maxHeight
    ensures Shr(|leaves| - 1, maxHeight - 1) == 0
  {
    TopPeak(d, leaves, 1, |leaves|);
    ShrBelow(|leaves| - 1, maxHeight - 1);
    if |leaves| == Pow2(maxHeight - 1) {
      PeaksOfPow2(d, leaves, 1, maxHeight - 1);
    } else {
      PeaksBelow(d, leaves, 1, |leaves|, maxHeight - 1);
    }
  }

  /** The state of the walk from the lowest peak to the root: `root` is the last
      non-empty subtree of its height, and the peaks not yet used are those to
      its left. */
  ghost predicate Walking(d: Digest, leaves: seq<Fr>, maxHeight: nat, height: nat, root: Fr, rest: seq<Root>)
  {
    && leaves != []
    && 1 <= height <= maxHeight
    && Shr(|leaves| - 1, maxHeight - 1) == 0
    && root == Node(d, leaves, height, Shr(|leaves| - 1, height - 1))
    && rest == Peaks(d, leaves, height, Shr(|leaves| - 1, height - 1))
  }

  lemma {:induction false} WalkStart(d: Digest, m: Mmr, leaves: seq<Fr>)
    requires Holds(d, m, leaves) && m.roots != []
    ensures Walking(d, leaves, m.maxHeight, m.roots[0].height, m.roots[0].root, m.roots[1..])
  {
    TopPeak(d, leaves, 1, |leaves|);
    LowestPeak(d, leaves, 1, |leaves|);
    LastSubtreeWithinHeight(d, leaves, m.maxHeight);
  }

  lemma {:induction false} WalkPad(d: Digest, leaves: seq<Fr>, maxHeight: nat, height: nat, root: Fr, rest: seq<Root>)
    requires Walking(d, leaves, maxHeight, height, root, rest) && height < maxHeight
    requires rest == [] || height < rest[0].height
    ensures Walking(d, leaves, maxHeight, height + 1, d.compress(root, EmptyRoot(d, height)), rest)
  {
    TopPeak(d, leaves, height, Shr(|leaves| - 1, height - 1));
    WalkUp(d, leaves, leaves, height, Shr(|leaves| - 1, height - 1));
  }

  lemma {:induction false} WalkJoin(d: Digest, leaves: seq<Fr>, maxHeight: nat, height: nat, root: Fr, rest: seq<Root>)
    requires Walking(d, leaves, maxHeight, height, root, rest)
    requires rest != [] && height == rest[0].height
    ensures Walking(d, leaves, maxHeight, height + 1, d.compress(rest[0].root, root), rest[1..])
  {
    TopPeak(d, leaves, height, Shr(|leaves| - 1, height - 1));
    WalkUp(d, leaves, leaves, height, Shr(|leaves| - 1, height - 1));
  }

  /** While a peak remains, the root has not been reached. */
  lemma {:induction false} WalkHasRoom(d: Digest, leaves: seq<Fr>, maxHeight: nat, height: nat, root: Fr,
                                       rest: seq<Root>)
    requires Walking(d, leaves, maxHeight, height, root, rest) && rest != []
    ensures height <= rest[0].height < maxHeight
  {
    PeakHeights(d, leaves, height, Shr(|leaves| - 1, height - 1));
    ShrSplit(|leaves| - 1, height - 1, maxHeight - height);
    ShrBelow(Shr(|leaves| - 1, height - 1), maxHeight - height);
    PeaksBelow(d, leaves, height, Shr(|leaves| - 1, height - 1), maxHeight - height);
  }

  /** The padding loop that `frontier_root` runs below the next peak and, at the
      end, below the maximum height. */
  method PadTo(d: Digest, root: Fr, height: nat, target: nat, ghost leaves: seq<Fr>, ghost maxHeight: nat,
               ghost rest: seq<Root>)
    returns (root': Fr)
    requires Walking(d, leaves, maxHeight, height, root, rest) && height <= target <= maxHeight
    requires rest == [] || rest[0].height == target
    ensures Walking(d, leaves, maxHeight, target, root', rest)
  {
    var h := height;
    root' := root;
    while h < target
      invariant h <= target && Walking(d, leaves, maxHeight, h, root', rest)
    {
      WalkPad(d, leaves, maxHeight, h, root', rest);
      root' := d.compress(root', EmptyRoot(d, h));
      h := h + 1;
    }
  }

  /** The root of the perfect tree over the pushed leaves padded with the empty
      value. Both height assertions of the source are proved. */
  method FrontierRoot(d: Digest, m: Mmr, ghost leaves: seq<Fr>) returns (root: Fr)
    requires Holds(d, m, leaves)
    ensures root == Node(d, leaves, m.maxHeight, 0)
  {
    if m.roots == [] {
      TopPeak(d, leaves, 1, |leaves|);
      NodeBeyondLeaves(d, leaves, m.maxHeight, 0);
      return EmptyRoot(d, m.maxHeight);
    }
    WalkStart(d, m, leaves);
    var height: nat := m.roots[0].height;
    root := m.roots[0].root;
    var iter := m.roots[1..];
    while iter != []
      invariant Walking(d, leaves, m.maxHeight, height, root, iter)
      decreases |iter|
    {
      var last := iter[0];
      WalkHasRoom(d, leaves, m.maxHeight, height, root, iter);
      root := PadTo(d, root, height, last.height, leaves, m.maxHeight, iter);
      WalkJoin(d, leaves, m.maxHeight, last.height, root, iter);
      root := d.compress(last.root, root);
      height := last.height + 1;
      iter := iter[1..];
    }
    root := PadTo(d, root, height, m.maxHeight, leaves, m.maxHeight, []);
  }

  /** The sum of the leaf counts of the peaks. */
  function LeafCount(roots: seq<Root>): nat
    requires forall r :: r in roots ==> r.height >= 1
  {
    if roots == [] then 0 else Pow2(roots[0].height - 1) + LeafCount(roots[1..])
  }

  lemma {:induction false} LeafCountOfPeaks(d: Digest, leaves: seq<Fr>, height: nat, q: nat)
    requires height >= 1
    ensures forall r :: r in Peaks(d, leaves, height, q) ==> r.height >= 1
    ensures LeafCount(Peaks(d, leaves, height, q)) == q * Pow2(height - 1)
    decreases q
  {
    if q > 0 {
      LeafCountOfPeaks(d, leaves, height + 1, q / 2);
      var p := Pow2(height - 1);
      assert (q / 2) * (2 * p) == (2 * (q / 2)) * p;
      if q % 2 == 1 {
        assert q == 2 * (q / 2) + 1;
        assert q * p == (2 * (q / 2)) * p + p;
        assert Peaks(d, leaves, height, q)[1..] == Peaks(d, leaves, height + 1, q / 2);
      } else {
        assert q == 2 * (q / 2);
      }
    }
  }

  /** `len` counts the pushes. */
  method Len(d: Digest, m: Mmr, ghost leaves: seq<Fr>) returns (len: nat)
    requires Holds(d, m, leaves)
    ensures len == |leaves|
  {
    LeafCountOfPeaks(d, leaves, 1, |leaves|);
    len := LeafCount(m.roots);
  }

  /** The table of empty roots that the source computes once. */
  method PrecomputeEmptyRoots(d: Digest) returns (table: array<Fr>)
    ensures table.Length == ACCEPTABLE_MAX_HEIGHT
    ensures forall height :: 1 <= height <= ACCEPTABLE_MAX_HEIGHT ==> table[height - 1] == EmptyRoot(d, height)
    ensures forall height :: 1 <= height <= ACCEPTABLE_MAX_HEIGHT ==> table[height - 1] == Node(d, [], height, 0)
  {
    table := new Fr[ACCEPTABLE_MAX_HEIGHT](_ => d.empty);
    for i := 1 to ACCEPTABLE_MAX_HEIGHT
      invariant forall j :: 0 <= j < i ==> table[j] == EmptyRoot(d, j + 1)
    {
      table[i] := d.compress(table[i - 1], table[i - 1]);
    }
    forall height | 1 <= height <= ACCEPTABLE_MAX_HEIGHT
      ensures table[height - 1] == Node(d, [], height, 0)
    {
      NodeBeyondLeaves(d, [], height, 0);
    }
  }
}
