/** The specification of the mountain range: the perfect binary tree of a fixed
    height over the pushed leaves, padded on the right with the empty value. */
module MerkleTree {
  import opened Bits

  /** A field element. Proofs only compare hashes, and every theorem holds for
      every compression function, so any countable carrier will do. */
  type Fr = int

  /** The two-to-one compression function, and the value of an empty leaf. */
  datatype Digest = Digest(compress: (Fr, Fr) -> Fr, empty: Fr)

  /** The root of subtree number `k`, counted from the left, among the subtrees
      of the given height. A leaf has height one. */
  function Node(d: Digest, leaves: seq<Fr>, height: nat, k: nat): Fr
    requires height >= 1
    decreases height
  {
    if height == 1 then
      if k < |leaves| then leaves[k] else d.empty
    else
      d.compress(Node(d, leaves, height - 1, 2 * k), Node(d, leaves, height - 1, 2 * k + 1))
  }

  function EmptyRoot(d: Digest, height: nat): Fr
    requires height >= 1
  {
    if height == 1 then d.empty
    else d.compress(EmptyRoot(d, height - 1), EmptyRoot(d, height - 1))
  }

  /** A reference definition that shares nothing with `Node`: the Merkle root of
      a full row of leaves, by halving the row. */
  function MerkleRoot(d: Digest, row: seq<Fr>, height: nat): Fr
    requires height >= 1 && |row| == Pow2(height - 1)
    decreases height
  {
    if height == 1 then row[0]
    else
      var half := Pow2(height - 2);
      d.compress(MerkleRoot(d, row[..half], height - 1), MerkleRoot(d, row[half..], height - 1))
  }

  function Padded(d: Digest, leaves: seq<Fr>, size: nat): seq<Fr>
  {
    seq(size, i requires 0 <= i < size => if i < |leaves| then leaves[i] else d.empty)
  }

  /** The parent of subtree `k` combines it with its sibling, the left one first. */
  lemma {:induction false} NodeOfChildren(d: Digest, leaves: seq<Fr>, height: nat, k: nat)
    requires height >= 1
    ensures Node(d, leaves, height + 1, k / 2) ==
      if k % 2 == 0 then d.compress(Node(d, leaves, height, k), Node(d, leaves, height, Sibling(k)))
      else d.compress(Node(d, leaves, height, Sibling(k)), Node(d, leaves, height, k))
  {
    assert k == 2 * (k / 2) + k % 2;
  }

  /** A subtree to the right of every leaf is empty. */
  lemma {:induction false} NodeBeyondLeaves(d: Digest, leaves: seq<Fr>, height: nat, k: nat)
    requires height >= 1 && (leaves == [] || k > Shr(|leaves| - 1, height - 1))
    ensures Node(d, leaves, height, k) == EmptyRoot(d, height)
    decreases height
  {
    if height > 1 {
      NodeBeyondLeaves(d, leaves, height - 1, 2 * k);
      NodeBeyondLeaves(d, leaves, height - 1, 2 * k + 1);
    }
  }

  /** Appending a leaf changes only the subtrees that contain its position. */
  lemma {:induction false} NodeUnchangedByAppend(d: Digest, leaves: seq<Fr>, x: Fr, height: nat, k: nat)
    requires height >= 1 && k != Shr(|leaves|, height - 1)
    ensures Node(d, leaves + [x], height, k) == Node(d, leaves, height, k)
    decreases height
  {
    if height > 1 {
      NodeUnchangedByAppend(d, leaves, x, height - 1, 2 * k);
      NodeUnchangedByAppend(d, leaves, x, height - 1, 2 * k + 1);
    }
  }

  function Drop(leaves: seq<Fr>, n: nat): seq<Fr>
  {
    if n <= |leaves| then leaves[n..] else []
  }

  /** The right half of a tree is the tree over the leaves past its middle. */
  lemma {:induction false} NodeOfRightHalf(d: Digest, leaves: seq<Fr>, top: nat, height: nat, k: nat)
    requires 1 <= height <= top
    ensures Node(d, leaves, height, k + Pow2(top - height))
         == Node(d, Drop(leaves, Pow2(top - 1)), height, k)
    decreases height
  {
    if height > 1 {
      NodeOfRightHalf(d, leaves, top, height - 1, 2 * k);
      NodeOfRightHalf(d, leaves, top, height - 1, 2 * k + 1);
    }
  }

  /** The left half of a tree ignores the leaves past its middle. */
  lemma {:induction false} NodeOfLeftHalf(d: Digest, leaves: seq<Fr>, rest: seq<Fr>, top: nat, height: nat, k: nat)
    requires 1 <= height <= top && k < Pow2(top - height) && |leaves| == Pow2(top - 1)
    ensures Node(d, leaves + rest, height, k) == Node(d, leaves, height, k)
    decreases height
  {
    if height > 1 {
      NodeOfLeftHalf(d, leaves, rest, top, height - 1, 2 * k);
      NodeOfLeftHalf(d, leaves, rest, top, height - 1, 2 * k + 1);
    }
  }

  lemma {:induction false} FullRowRoot(d: Digest, row: seq<Fr>, height: nat)
    requires height >= 1 && |row| == Pow2(height - 1)
    ensures Node(d, row, height, 0) == MerkleRoot(d, row, height)
    decreases height
  {
    if height > 1 {
      var half := Pow2(height - 2);
      assert row == row[..half] + row[half..];
      NodeOfLeftHalf(d, row[..half], row[half..], height - 1, height - 1, 0);
      NodeOfRightHalf(d, row, height - 1, height - 1, 0);
      FullRowRoot(d, row[..half], height - 1);
      FullRowRoot(d, row[half..], height - 1);
    }
  }

  lemma {:induction false} NodeIgnoresPadding(d: Digest, leaves: seq<Fr>, size: nat, height: nat, k: nat)
    requires height >= 1 && |leaves| <= size
    ensures Node(d, Padded(d, leaves, size), height, k) == Node(d, leaves, height, k)
    decreases height
  {
    if height > 1 {
      NodeIgnoresPadding(d, leaves, size, height - 1, 2 * k);
      NodeIgnoresPadding(d, leaves, size, height - 1, 2 * k + 1);
    }
  }

  /** The two definitions of the root of the whole padded tree agree. */
  lemma {:induction false} RootIsMerkleRootOfPaddedLeaves(d: Digest, leaves: seq<Fr>, height: nat)
    requires height >= 1 && |leaves| <= Pow2(height - 1)
    ensures Node(d, leaves, height, 0)
         == MerkleRoot(d, Padded(d, leaves, Pow2(height - 1)), height)
  {
    var size := Pow2(height - 1);
    NodeIgnoresPadding(d, leaves, size, height, 0);
    FullRowRoot(d, Padded(d, leaves, size), height);
  }
}
