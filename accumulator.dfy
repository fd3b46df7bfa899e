/** The records Merkle tree as the query service and the wallet use it: an
    append-only sequence of leaves with its commitment, its frontier and a
    partial restore from the two. The hashing inside the tree is abstracted:
    a commitment carries the leaf sequence itself as its root, which models a
    collision-free root; a frontier carries the last leaf and its uid, the only
    leaf a pruned tree remembers; a membership path names the leaf and the
    tree it authenticates against. */
module Accumulator {
  import opened Wrappers

  /** A field element of the record commitment scheme. */
  type Field = int

  datatype Tree = Tree(leaves: seq<Field>)

  /** Root and leaf count of a tree; the root is abstracted as the leaves. */
  datatype TreeCommitment = TreeCommitment(numLeaves: nat, root: seq<Field>)

  /** The rightmost path of a tree: nothing for an empty tree, otherwise the
      last leaf and its position. */
  datatype Frontier = EmptyFrontier | LastLeaf(uid: nat, leaf: Field)

  /** The membership path of leaf `uid` in the tree whose root is `root`. */
  datatype MerklePath = MerklePath(uid: nat, root: seq<Field>)

  const EmptyTree := Tree([])

  function NumLeaves(t: Tree): nat {
    |t.leaves|
  }

  /** Appends one leaf; its uid is the leaf count before the push. */
  function Push(t: Tree, leaf: Field): (r: Tree)
    ensures NumLeaves(r) == NumLeaves(t) + 1
    ensures r.leaves[NumLeaves(t)] == leaf && r.leaves[..NumLeaves(t)] == t.leaves
  {
    Tree(t.leaves + [leaf])
  }

  function Commitment(t: Tree): TreeCommitment {
    TreeCommitment(|t.leaves|, t.leaves)
  }

  function FrontierOf(t: Tree): Frontier {
    if |t.leaves| == 0 then EmptyFrontier
    else LastLeaf(|t.leaves| - 1, t.leaves[|t.leaves| - 1])
  }

  /** A commitment and a frontier describe the same tree. */
  predicate Consistent(c: TreeCommitment, f: Frontier) {
    && c.numLeaves == |c.root|
    && f == (if c.numLeaves == 0 then EmptyFrontier
             else LastLeaf(c.numLeaves - 1, c.root[c.numLeaves - 1]))
  }

  /** Rebuilds a tree from its commitment and frontier; fails on a pair that
      does not describe one tree. */
  function Restore(c: TreeCommitment, f: Frontier): (r: Option<Tree>)
    ensures r.Some? <==> Consistent(c, f)
    ensures r.Some? ==> Commitment(r.value) == c && FrontierOf(r.value) == f
  {
    if Consistent(c, f) then Some(Tree(c.root)) else None
  }

  /** The membership path of a retained leaf. */
  function GetLeafPath(t: Tree, uid: nat): (p: MerklePath)
    requires uid < NumLeaves(t)
    ensures p.uid == uid && p.root == Commitment(t).root
  {
    MerklePath(uid, t.leaves)
  }

  /** Restoring the commitment and frontier of any tree gives the tree back;
      for the empty tree the empty frontier restores the empty tree. */
  lemma RestoreRoundTrip(t: Tree)
    ensures Restore(Commitment(t), FrontierOf(t)) == Some(t)
    ensures t == EmptyTree ==> FrontierOf(t) == EmptyFrontier
  {
  }
}
