/** The flat layout of a records-tree frontier that the CAPE contract reads
    (contracts/rust/src/records_merkle_tree/mod.rs). The tree is ternary: a
    path node holds the position of the path's child among three siblings
    (left, middle, right) and the values of the two other children. The
    Rescue hash is a parameter: nothing below depends on how it is computed.
    Field elements are integers; their conversions to and from node values
    are the identity. */
module RecordsMerkleTree {
  import opened Wrappers

  type Field = int

  /** The value of an empty node. */
  const EMPTY_NODE_VALUE: Field := 0

  /** The three-to-one hash of internal nodes. */
  type Hash3 = (Field, Field, Field) -> Field

  datatype NodePos = Left | Middle | Right

  /** A path node: where the path's child sits and its two siblings. */
  datatype PathNode = PathNode(pos: NodePos, sibling1: Field, sibling2: Field)

  /** A frontier: empty, or the last leaf with its path from the bottom up. */
  datatype MerkleFrontier = Empty(height: nat) | Proof(leaf: Field, nodes: seq<PathNode>)

  /** The position a base-3 digit names. */
  function PosOf(digit: nat): (p: NodePos)
    requires digit < 3
    ensures digit == 0 <==> p == Left
    ensures digit == 1 <==> p == Middle
    ensures digit == 2 <==> p == Right
  {
    if digit == 0 then Left else if digit == 1 then Middle else Right
  }

  /** `uid` divided by 3 `k` times, the integer division of the source. */
  function ShiftDigits(uid: nat, k: nat): nat {
    if k == 0 then uid else ShiftDigits(uid / 3, k - 1)
  }

  /** Base-3 digit `k` of `uid`, lowest digit first. */
  function UidDigit(uid: nat, k: nat): (d: nat)
    ensures d < 3
  {
    ShiftDigits(uid, k) % 3
  }

  /** Dividing once more by 3 shifts one more digit out. */
  lemma {:induction false} ShiftDigitsStep(uid: nat, k: nat)
    ensures ShiftDigits(uid, k) / 3 == ShiftDigits(uid, k + 1)
    decreases k
  {
    if k > 0 {
      ShiftDigitsStep(uid / 3, k - 1);
    }
  }

  /** The hash of a leaf together with its uid: `hash(empty, uid, leaf)`. */
  function ComputeHashLeaf(hash: Hash3, leaf: Field, uid: nat): (v: Field)
    ensures v == hash(EMPTY_NODE_VALUE, uid, leaf)
  {
    hash(EMPTY_NODE_VALUE, uid, leaf)
  }

  /** The siblings of the path nodes, two by two, bottom node first. */
  function Siblings(nodes: seq<PathNode>): (r: seq<Field>)
    ensures |r| == 2 * |nodes|
    ensures forall k :: 0 <= k < |nodes| ==> r[2 * k] == nodes[k].sibling1 && r[2 * k + 1] == nodes[k].sibling2
    decreases |nodes|
  {
    if |nodes| == 0 then []
    else Siblings(nodes[..|nodes| - 1]) + [nodes[|nodes| - 1].sibling1, nodes[|nodes| - 1].sibling2]
  }

  /** The flat layout: nothing for an empty frontier; otherwise the hashed
      leaf followed by the two siblings of every path node. */
  function Flattened(hash: Hash3, frontier: MerkleFrontier, uid: nat): seq<Field> {
    match frontier
    case Proof(leaf, nodes) => [ComputeHashLeaf(hash, leaf, uid)] + Siblings(nodes)
    case Empty(_) => []
  }

  /** The path a flat layout describes for leaf `uid`: node `k` takes its
      siblings from positions `2k + 1` and `2k + 2` and its position from
      base-3 digit `k` of `uid`. */
  function PathFromFlat(flat: seq<Field>, uid: nat): (nodes: seq<PathNode>)
    requires |flat| % 2 == 1
    ensures |nodes| == (|flat| - 1) / 2
  {
    seq((|flat| - 1) / 2, k requires 0 <= k < (|flat| - 1) / 2 =>
      PathNode(PosOf(UidDigit(uid, k)), flat[2 * k + 1], flat[2 * k + 2]))
  }

  /** What parsing a flat layout gives: the empty frontier of height 0 for an
      empty layout; a failure (the source indexes past the end and panics)
      for a layout of even length; otherwise the first element as the leaf
      and the path the rest describes. */
  function ParsedFrontier(flat: seq<Field>, uid: nat): Option<MerkleFrontier> {
    if |flat| == 0 then Some(Empty(0))
    else if |flat| % 2 == 0 then None
    else Some(Proof(flat[0], PathFromFlat(flat, uid)))
  }

  /** `flatten_frontier`. */
  method FlattenFrontier(hash: Hash3, frontier: MerkleFrontier, uid: nat) returns (res: seq<Field>)
    ensures res == Flattened(hash, frontier, uid)
  {
    match frontier {
      case Proof(leaf, nodes) =>
        res := [];
        var currentVal := ComputeHashLeaf(hash, leaf, uid);
        res := res + [currentVal];
        for k := 0 to |nodes|
          invariant res == [currentVal] + Siblings(nodes[..k])
        {
          assert nodes[..k + 1][..k] == nodes[..k];
          res := res + [nodes[k].sibling1];
          res := res + [nodes[k].sibling2];
        }
        assert nodes[..|nodes|] == nodes;
      case Empty(_) =>
        res := [];
    }
  }

  /** `parse_flattened_frontier`: the position of each node comes from
      dividing the uid by 3 once per level. None stands for the panic on a
      layout of even length. */
  method ParseFlattenedFrontier(flat: seq<Field>, uid: nat) returns (r: Option<MerkleFrontier>)
    ensures r == ParsedFrontier(flat, uid)
  {
    if |flat| == 0 {
      return Some(Empty(0));
    }
    var nodes: seq<PathNode> := [];
    var absolutePosition := uid;
    var localPosition := absolutePosition % 3;
    var i := 1;
    while i < |flat|
      invariant i == 2 * |nodes| + 1
      invariant |flat| % 2 == 1 ==> i <= |flat|
      invariant |flat| % 2 == 0 ==> i < |flat|
      invariant absolutePosition == ShiftDigits(uid, |nodes|)
      invariant localPosition == absolutePosition % 3
      invariant forall k :: 0 <= k < |nodes| ==>
                  nodes[k] == PathNode(PosOf(UidDigit(uid, k)), flat[2 * k + 1], flat[2 * k + 2])
      decreases |flat| - i
    {
      if i + 1 >= |flat| {
        return None;
      }
      var node := PathNode(PosOf(localPosition), flat[i], flat[i + 1]);
      // The other branch of the source, taken when `i` is the last index, is
      // dead: that index has already made `flat[i + 1]` panic.
      assert i < |flat| - 1;
      ShiftDigitsStep(uid, |nodes|);
      absolutePosition := absolutePosition / 3;
      localPosition := absolutePosition % 3;
      nodes := nodes + [node];
      i := i + 2;
    }
    assert nodes == PathFromFlat(flat, uid);
    return Some(Proof(flat[0], nodes));
  }

  // ---------------------------------------------------------------------
  // Properties of the layout

  /** An empty frontier flattens to nothing. */
  lemma FlattenEmpty(hash: Hash3, height: nat, uid: nat)
    ensures Flattened(hash, Empty(height), uid) == []
  {
  }

  /** A frontier with path `nodes` flattens to `1 + 2 |nodes|` elements: the
      hashed leaf first, then sibling1 and sibling2 of node k at positions
      `2k + 1` and `2k + 2`. */
  lemma FlattenLayout(hash: Hash3, leaf: Field, nodes: seq<PathNode>, uid: nat)
    ensures var flat := Flattened(hash, Proof(leaf, nodes), uid);
      && |flat| == 1 + 2 * |nodes|
      && flat[0] == hash(EMPTY_NODE_VALUE, uid, leaf)
      && forall k :: 0 <= k < |nodes| ==> flat[2 * k + 1] == nodes[k].sibling1 && flat[2 * k + 2] == nodes[k].sibling2
  {
    var flat := Flattened(hash, Proof(leaf, nodes), uid);
    forall k | 0 <= k < |nodes|
      ensures flat[2 * k + 1] == nodes[k].sibling1 && flat[2 * k + 2] == nodes[k].sibling2
    {
      assert flat[2 * k + 1] == Siblings(nodes)[2 * k];
      assert flat[2 * k + 2] == Siblings(nodes)[2 * k + 1];
    }
  }

  /** The path of the frontier of leaf `uid` goes through the children named
      by the base-3 digits of `uid`, lowest digit at the bottom. */
  predicate PathFollowsUid(nodes: seq<PathNode>, uid: nat) {
    forall k :: 0 <= k < |nodes| ==> nodes[k].pos == PosOf(UidDigit(uid, k))
  }

  /** Parsing the layout of a frontier whose path follows its uid gives back
      the same path; the leaf comes back hashed with its uid. */
  lemma ParseFlattenRoundTrip(hash: Hash3, leaf: Field, nodes: seq<PathNode>, uid: nat)
    requires PathFollowsUid(nodes, uid)
    ensures ParsedFrontier(Flattened(hash, Proof(leaf, nodes), uid), uid)
            == Some(Proof(ComputeHashLeaf(hash, leaf, uid), nodes))
  {
    var flat := Flattened(hash, Proof(leaf, nodes), uid);
    FlattenLayout(hash, leaf, nodes, uid);
    var parsed := PathFromFlat(flat, uid);
    assert |parsed| == |nodes|;
    forall k | 0 <= k < |nodes| ensures parsed[k] == nodes[k] {
      assert parsed[k] == PathNode(PosOf(UidDigit(uid, k)), flat[2 * k + 1], flat[2 * k + 2]);
    }
    assert parsed == nodes;
  }

  /** The parsed path takes its positions from `uid` only: a path whose
      positions do not follow the uid does not survive the round trip. */
  lemma ParseFlattenNeedsUidPath(hash: Hash3, leaf: Field, nodes: seq<PathNode>, uid: nat)
    requires ParsedFrontier(Flattened(hash, Proof(leaf, nodes), uid), uid)
             == Some(Proof(ComputeHashLeaf(hash, leaf, uid), nodes))
    ensures PathFollowsUid(nodes, uid)
  {
    var flat := Flattened(hash, Proof(leaf, nodes), uid);
    FlattenLayout(hash, leaf, nodes, uid);
    var parsed := PathFromFlat(flat, uid);
    forall k | 0 <= k < |nodes| ensures nodes[k].pos == PosOf(UidDigit(uid, k)) {
      assert parsed[k] == nodes[k];
    }
  }

  /** The empty frontier survives the round trip only as the empty frontier
      of height 0: its height is not part of the layout. */
  lemma ParseFlattenEmpty(hash: Hash3, height: nat, uid: nat)
    ensures ParsedFrontier(Flattened(hash, Empty(height), uid), uid) == Some(Empty(0))
  {
  }
}
