/** The count-bound ordered Merkle tree (doc/protocol/01-data-model-and-cryptography.md, section 18).
    Item, leaf, node and root hashing use separate domains and are taken to be injective. */
module OrderedMerkle {
  import opened Wrappers

  type ItemHash = nat

  datatype Hash = LeafHash(index: nat, item: ItemHash) | NodeHash(left: Hash, right: Hash)

  /** The root binds the count; the empty tree hashes the count 0 alone. */
  datatype RootHash = RootHash(count: nat, top: Option<Hash>)

  function Leaves(items: seq<ItemHash>): seq<Hash> {
    seq(|items|, i requires 0 <= i < |items| => LeafHash(i, items[i]))
  }

  function SiblingIndex(i: nat): nat {
    if i % 2 == 0 then i + 1 else i - 1
  }

  /** The other child of i's parent: the last node of an odd level stands beside a copy of itself. */
  function SiblingOf(level: seq<Hash>, i: nat): Hash
    requires i < |level|
  {
    if SiblingIndex(i) < |level| then level[SiblingIndex(i)] else level[i]
  }

  function ParentLevel(level: seq<Hash>): seq<Hash> {
    seq((|level| + 1) / 2, i requires 0 <= i < (|level| + 1) / 2 =>
      NodeHash(level[2 * i], SiblingOf(level, 2 * i)))
  }

  /** The next level pairs the nodes from the left; a last node without partner is paired with itself. */
  lemma NodesArePaired(level: seq<Hash>, i: nat)
    requires 2 * i < |level|
    ensures |ParentLevel(level)| == |level| / 2 + |level| % 2 && i < |ParentLevel(level)|
    ensures 2 * i + 1 < |level| ==> ParentLevel(level)[i] == NodeHash(level[2 * i], level[2 * i + 1])
    ensures 2 * i + 1 == |level| ==> ParentLevel(level)[i] == NodeHash(level[2 * i], level[2 * i])
  {
  }

  function Top(level: seq<Hash>): Hash
    requires level != []
    decreases |level|
  {
    if |level| == 1 then level[0] else Top(ParentLevel(level))
  }

  function Root(items: seq<ItemHash>): RootHash {
    RootHash(|items|, if items == [] then None else Some(Top(Leaves(items))))
  }

  // ---------------------------------------------------------------- inclusion proofs

  datatype Proof = Proof(index: nat, count: nat, item: ItemHash, siblings: seq<Hash>)

  /** How often count must be halved upwards to reach 1. */
  function PathLength(count: nat): nat {
    if count <= 1 then 0 else 1 + PathLength((count + 1) / 2)
  }

  function Combine(current: Hash, sibling: Hash, index: nat): Hash {
    if index % 2 == 0 then NodeHash(current, sibling) else NodeHash(sibling, current)
  }

  /** The hash the path leads to, taking the side from the index bit of each level, or none when a
      duplicated level carries a sibling other than the current hash. */
  function Follow(current: Hash, index: nat, count: nat, siblings: seq<Hash>): Option<Hash>
    requires |siblings| == PathLength(count)
    decreases |siblings|
  {
    if siblings == [] then Some(current)
    else if index % 2 == 0 && index + 1 == count && siblings[0] != current then None
    else Follow(Combine(current, siblings[0], index), index / 2, (count + 1) / 2, siblings[1..])
  }

  predicate Verify(root: RootHash, proof: Proof) {
    && proof.index < proof.count
    && |proof.siblings| == PathLength(proof.count)
    && var top := Follow(LeafHash(proof.index, proof.item), proof.index, proof.count, proof.siblings);
       top.Some? && root == RootHash(proof.count, top)
  }

  function Path(level: seq<Hash>, index: nat): (siblings: seq<Hash>)
    requires index < |level|
    ensures |siblings| == PathLength(|level|)
    decreases |level|
  {
    if |level| == 1 then [] else [SiblingOf(level, index)] + Path(ParentLevel(level), index / 2)
  }

  function Prove(items: seq<ItemHash>, index: nat): Proof
    requires index < |items|
  {
    Proof(index, |items|, items[index], Path(Leaves(items), index))
  }

  lemma ParentOf(level: seq<Hash>, i: nat)
    requires i < |level| && |level| > 1
    ensures i / 2 < |ParentLevel(level)|
    ensures ParentLevel(level)[i / 2] == Combine(level[i], SiblingOf(level, i), i)
    ensures i % 2 == 0 && i + 1 == |level| ==> SiblingOf(level, i) == level[i]
  {
    assert i == 2 * (i / 2) + i % 2;
  }

  lemma {:induction false} PathLeadsToTop(level: seq<Hash>, index: nat)
    requires index < |level|
    ensures Follow(level[index], index, |level|, Path(level, index)) == Some(Top(level))
    decreases |level|
  {
    if |level| > 1 {
      ParentOf(level, index);
      PathLeadsToTop(ParentLevel(level), index / 2);
    }
  }

  /** Whatever leads to the top of a level is the node at that index. */
  lemma {:induction false} OnlyTheRealNodeFollows(level: seq<Hash>, index: nat, current: Hash, siblings: seq<Hash>)
    requires index < |level| && |siblings| == PathLength(|level|)
    requires Follow(current, index, |level|, siblings) == Some(Top(level))
    ensures current == level[index] && siblings == Path(level, index)
    decreases |level|
  {
    if |level| > 1 {
      ParentOf(level, index);
      OnlyTheRealNodeFollows(ParentLevel(level), index / 2, Combine(current, siblings[0], index), siblings[1..]);
      assert siblings == [siblings[0]] + siblings[1..];
    }
  }

  /** Every generated proof has the prescribed length and verifies. */
  lemma GeneratedProofsVerify(items: seq<ItemHash>, index: nat)
    requires index < |items|
    ensures |Prove(items, index).siblings| == PathLength(|items|)
    ensures Verify(Root(items), Prove(items, index))
  {
    PathLeadsToTop(Leaves(items), index);
  }

  /** A proof verifies exactly when it is the generated proof of the item really at its index. */
  lemma ProofsVerifyExactlyForRealItems(items: seq<ItemHash>, proof: Proof)
    ensures Verify(Root(items), proof) <==> proof.index < |items| && proof == Prove(items, proof.index)
  {
    if Verify(Root(items), proof) {
      OnlyTheRealNodeFollows(Leaves(items), proof.index, LeafHash(proof.index, proof.item), proof.siblings);
    }
    if proof.index < |items| && proof == Prove(items, proof.index) {
      GeneratedProofsVerify(items, proof.index);
    }
  }

  /** Odd-leaf duplication is harmless: equal roots mean equal lists. */
  lemma RootsBindLists(a: seq<ItemHash>, b: seq<ItemHash>)
    ensures Root(a) == Root(b) <==> a == b
  {
    if Root(a) == Root(b) {
      forall i | 0 <= i < |a|
        ensures a[i] == b[i]
      {
        GeneratedProofsVerify(a, i);
        ProofsVerifyExactlyForRealItems(b, Prove(a, i));
      }
    }
  }
}
