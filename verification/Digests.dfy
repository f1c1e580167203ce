/**
 * Hashing as a free term algebra: a leaf digest names its fields, a node digest names the pair
 * it hashes, and Other stands for any 32 bytes that are neither. A leaf stands for a hash only
 * while its fields are encodable; every operation that hashes one checks that first. The numeric
 * comparison that sorts a pair is an arbitrary order in which two different digests never tie.
 */
module Digests {
  import opened PodModel
  import opened Sums

  /** The encoded claim tuple. */
  datatype LeafFields = LeafFields(
    chainId: nat, claimManager: Address, cycleId: nat, wallet: Address, asset: Address, amount: int)

  /** The integers of the tuple are encoded as uint256; anything else makes the encoder throw. */
  predicate Encodable(f: LeafFields) {
    f.chainId <= MAX_UINT256 && f.cycleId <= MAX_UINT256 && 0 <= f.amount <= MAX_UINT256
  }

  /** What every claim of one distribution has in common. */
  datatype ClaimDomain = ClaimDomain(chainId: nat, claimManagerAddress: Address, cycleId: nat)

  datatype Digest = Leaf(fields: LeafFields) | Node(lo: Digest, hi: Digest) | Other(bytes: nat)

  ghost predicate Separates(less: (Digest, Digest) -> bool) {
    forall a, b :: a != b ==> (less(a, b) <==> !less(b, a))
  }

  /** Hash of the sorted pair. */
  function HashPair(a: Digest, b: Digest, less: (Digest, Digest) -> bool): Digest {
    if less(a, b) then Node(a, b) else Node(b, a)
  }

  function Fold(leaf: Digest, proof: seq<Digest>, less: (Digest, Digest) -> bool): Digest {
    if proof == [] then leaf
    else HashPair(Fold(leaf, proof[..|proof| - 1], less), proof[|proof| - 1], less)
  }

  /** The verifier's loop over the siblings. */
  method ViemProcessProof(leaf: Digest, proof: seq<Digest>, less: (Digest, Digest) -> bool) returns (computed: Digest)
    ensures computed == Fold(leaf, proof, less)
  {
    computed := leaf;
    for i := 0 to |proof|
      invariant computed == Fold(leaf, proof[..i], less)
    {
      assert proof[..i + 1][..i] == proof[..i];
      computed := HashPair(computed, proof[i], less);
    }
    assert proof[..|proof|] == proof;
  }

  // ---- Trees of any shape ---------------------------------------------------------------

  datatype Tree = Tip(digest: Digest) | Fork(left: Tree, right: Tree)

  function Leaves(t: Tree): seq<Digest> {
    match t
    case Tip(d) => [d]
    case Fork(l, r) => Leaves(l) + Leaves(r)
  }

  function Root(t: Tree, less: (Digest, Digest) -> bool): Digest {
    match t
    case Tip(d) => d
    case Fork(l, r) => HashPair(Root(l, less), Root(r, less), less)
  }

  /** Siblings on the way from a leaf up to the root. */
  function PathTo(t: Tree, d: Digest, less: (Digest, Digest) -> bool): seq<Digest>
    requires d in Leaves(t)
  {
    match t
    case Tip(_) => []
    case Fork(l, r) =>
      if d in Leaves(l) then PathTo(l, d, less) + [Root(r, less)] else PathTo(r, d, less) + [Root(l, less)]
  }

  /** Every leaf's sibling path folds to the root. */
  lemma {:induction false} FoldComplete(t: Tree, d: Digest, less: (Digest, Digest) -> bool)
    requires Separates(less) && d in Leaves(t)
    ensures Fold(d, PathTo(t, d, less), less) == Root(t, less)
  {
    match t
    case Tip(_) =>
    case Fork(l, r) =>
      var near, far := if d in Leaves(l) then l else r, if d in Leaves(l) then r else l;
      FoldComplete(near, d, less);
      var path := PathTo(near, d, less);
      assert (path + [Root(far, less)])[..|path|] == path;
  }

  /** A leaf digest that folds to the root by any siblings whatever is a leaf of the tree. */
  lemma {:induction false} FoldSound(t: Tree, d: Digest, proof: seq<Digest>, less: (Digest, Digest) -> bool)
    requires d.Leaf? && forall x :: x in Leaves(t) ==> x.Leaf?
    requires Fold(d, proof, less) == Root(t, less)
    ensures d in Leaves(t)
  {
    RootShape(t, less);
    if proof != [] {
      var rest := proof[..|proof| - 1];
      if Fold(d, rest, less) == Root(t.left, less) {
        FoldSound(t.left, d, rest, less);
      } else {
        FoldSound(t.right, d, rest, less);
      }
    }
  }

  lemma RootShape(t: Tree, less: (Digest, Digest) -> bool)
    requires forall x :: x in Leaves(t) ==> x.Leaf?
    ensures t.Tip? <==> Root(t, less).Leaf?
    ensures t.Fork? <==> Root(t, less).Node?
  {
    match t
    case Tip(x) => assert x in Leaves(t);
    case Fork(l, r) =>
  }

  ghost predicate Provable(root: Digest, f: LeafFields, less: (Digest, Digest) -> bool) {
    exists proof :: Fold(Leaf(f), proof, less) == root
  }

  /** What can be proved under a root is exactly what was put into the tree. */
  lemma ProvableIffLeaf(t: Tree, f: LeafFields, less: (Digest, Digest) -> bool)
    requires Separates(less) && forall x :: x in Leaves(t) ==> x.Leaf?
    ensures Provable(Root(t, less), f, less) <==> Leaf(f) in Leaves(t)
  {
    if Leaf(f) in Leaves(t) {
      FoldComplete(t, Leaf(f), less);
    }
    if Provable(Root(t, less), f, less) {
      var proof :| Fold(Leaf(f), proof, less) == Root(t, less);
      FoldSound(t, Leaf(f), proof, less);
    }
  }
}
