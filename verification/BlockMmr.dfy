/** The Merkle mountain range over finalized blocks
    (doc/protocol/01-data-model-and-cryptography.md, section 18.2). Domain-separated hashing is taken
    to be injective: a hash is the constructor applied to what was hashed. */
module BlockMmr {

  type BlockId = nat

  datatype Hash = LeafHash(height: nat, block: BlockId) | NodeHash(level: nat, left: Hash, right: Hash)

  datatype Peak = Peak(level: nat, hash: Hash)

  datatype RootHash = RootHash(leafCount: nat, peaks: seq<Peak>)

  function Pow2(n: nat): (r: nat)
    ensures r >= 1
  {
    if n == 0 then 1 else 2 * Pow2(n - 1)
  }

  lemma {:induction false} Pow2Grows(a: nat, b: nat)
    requires a < b
    ensures 2 * Pow2(a) <= Pow2(b)
  {
    if a + 1 < b {
      Pow2Grows(a, b - 1);
    }
  }

  // ---------------------------------------------------------------- what the peaks mean

  /** The hash of the perfect tree over the 2^level blocks from index `from` on. */
  function Tree(blocks: seq<BlockId>, from: nat, level: nat): Hash
    requires from + Pow2(level) <= |blocks|
    decreases level
  {
    if level == 0 then LeafHash(from + 1, blocks[from])
    else NodeHash(level, Tree(blocks, from, level - 1), Tree(blocks, from + Pow2(level - 1), level - 1))
  }

  /** From left to right the peaks are perfect trees of strictly decreasing level that cover exactly
      the first `upTo` blocks, interval after interval. */
  ghost predicate Covers(blocks: seq<BlockId>, peaks: seq<Peak>, upTo: nat)
    requires upTo <= |blocks|
    decreases |peaks|
  {
    if peaks == [] then upTo == 0
    else
      var rest, last := peaks[..|peaks| - 1], peaks[|peaks| - 1];
      && (rest != [] ==> rest[|rest| - 1].level > last.level)
      && Pow2(last.level) <= upTo
      && last.hash == Tree(blocks, upTo - Pow2(last.level), last.level)
      && Covers(blocks, rest, upTo - Pow2(last.level))
  }

  lemma {:induction false} TreeIsStable(blocks: seq<BlockId>, more: seq<BlockId>, from: nat, level: nat)
    requires from + Pow2(level) <= |blocks|
    ensures Tree(blocks + more, from, level) == Tree(blocks, from, level)
    decreases level
  {
    if level > 0 {
      TreeIsStable(blocks, more, from, level - 1);
      TreeIsStable(blocks, more, from + Pow2(level - 1), level - 1);
    }
  }

  lemma {:induction false} CoversIsStable(blocks: seq<BlockId>, more: seq<BlockId>, peaks: seq<Peak>, upTo: nat)
    requires upTo <= |blocks| && Covers(blocks, peaks, upTo)
    ensures Covers(blocks + more, peaks, upTo)
    decreases |peaks|
  {
    if peaks != [] {
      var last := peaks[|peaks| - 1];
      TreeIsStable(blocks, more, upTo - Pow2(last.level), last.level);
      CoversIsStable(blocks, more, peaks[..|peaks| - 1], upTo - Pow2(last.level));
    }
  }

  // ---------------------------------------------------------------- append

  /** During a carry: the peaks cover everything before `base`, the carry the rest. */
  ghost predicate CarryAt(blocks: seq<BlockId>, peaks: seq<Peak>, base: nat, carry: Peak) {
    && base + Pow2(carry.level) == |blocks|
    && Covers(blocks, peaks, base)
    && carry.hash == Tree(blocks, base, carry.level)
    && (peaks != [] ==> peaks[|peaks| - 1].level >= carry.level)
  }

  lemma LeafIsATree(blocks: seq<BlockId>, i: nat)
    requires i < |blocks|
    ensures Pow2(0) == 1 && Tree(blocks, i, 0) == LeafHash(i + 1, blocks[i])
  {
  }

  lemma CarryStep(blocks: seq<BlockId>, peaks: seq<Peak>, base: nat, carry: Peak)
    requires CarryAt(blocks, peaks, base, carry)
    requires peaks != [] && peaks[|peaks| - 1].level == carry.level
    ensures var left := peaks[|peaks| - 1];
      && Pow2(left.level) <= base
      && CarryAt(blocks, peaks[..|peaks| - 1], base - Pow2(left.level),
           Peak(carry.level + 1, NodeHash(carry.level + 1, left.hash, carry.hash)))
  {
  }

  lemma CarryEnds(blocks: seq<BlockId>, peaks: seq<Peak>, base: nat, carry: Peak)
    requires CarryAt(blocks, peaks, base, carry)
    requires peaks == [] || peaks[|peaks| - 1].level != carry.level
    ensures Covers(blocks, peaks + [carry], |blocks|)
  {
    var all := peaks + [carry];
    assert all[..|all| - 1] == peaks && all[|all| - 1] == carry;
  }

  datatype AppendResult = Appended | WrongHeight

  class Mmr {
    var leafCount: nat
    var peaks: seq<Peak>
    /** Every block appended so far, in height order. */
    ghost var blocks: seq<BlockId>

    ghost predicate Valid()
      reads this
    {
      leafCount == |blocks| && Covers(blocks, peaks, leafCount)
    }

    constructor ()
      ensures Valid() && blocks == []
    {
      leafCount, peaks, blocks := 0, [], [];
    }

    /** Binary carry. The loop ends because every turn pops a peak. */
    method Append(h: nat, block: BlockId) returns (result: AppendResult)
      requires Valid()
      modifies this
      ensures Valid()
      ensures result.Appended? <==> h == old(leafCount) + 1
      ensures result.Appended? ==> blocks == old(blocks) + [block]
      ensures result.WrongHeight? ==> blocks == old(blocks) && peaks == old(peaks) && leafCount == old(leafCount)
    {
      if h != leafCount + 1 {
        return WrongHeight;
      }
      hide Covers, Tree;
      CoversIsStable(blocks, [block], peaks, leafCount);
      blocks := blocks + [block];
      var carry := Peak(0, LeafHash(h, block));
      ghost var base: nat := leafCount;
      LeafIsATree(blocks, base);
      while peaks != [] && peaks[|peaks| - 1].level == carry.level
        invariant blocks == old(blocks) + [block] && leafCount == old(leafCount) && h == |blocks|
        invariant CarryAt(blocks, peaks, base, carry)
        decreases |peaks|
      {
        var left := peaks[|peaks| - 1];
        CarryStep(blocks, peaks, base, carry);
        base := base - Pow2(left.level);
        peaks := peaks[..|peaks| - 1];
        carry := Peak(carry.level + 1, NodeHash(carry.level + 1, left.hash, carry.hash));
      }
      CarryEnds(blocks, peaks, base, carry);
      peaks := peaks + [carry];
      leafCount := h;
      return Appended;
    }

    function Root(): RootHash
      reads this
    {
      RootHash(leafCount, peaks)
    }
  }

  // ---------------------------------------------------------------- levels are binary digits

  /** The i-th binary digit of n. */
  predicate Bit(n: nat, i: nat) {
    if i == 0 then n % 2 == 1 else Bit(n / 2, i - 1)
  }

  predicate Decreasing(levels: seq<nat>) {
    forall i, j | 0 <= i < j < |levels| :: levels[i] > levels[j]
  }

  function Sum(levels: seq<nat>): nat {
    if levels == [] then 0 else Sum(levels[..|levels| - 1]) + Pow2(levels[|levels| - 1])
  }

  function Down(levels: seq<nat>): seq<nat>
    requires forall i | 0 <= i < |levels| :: levels[i] > 0
  {
    seq(|levels|, i requires 0 <= i < |levels| => levels[i] - 1)
  }

  lemma {:induction false} DownHalves(levels: seq<nat>)
    requires Decreasing(levels) && forall i | 0 <= i < |levels| :: levels[i] > 0
    ensures Sum(levels) == 2 * Sum(Down(levels)) && Decreasing(Down(levels))
  {
    if levels != [] {
      var rest := levels[..|levels| - 1];
      DownHalves(rest);
      assert Down(levels)[..|levels| - 1] == Down(rest);
    }
  }

  /** The levels above 0. */
  function Upper(levels: seq<nat>): (r: seq<nat>)
    requires Decreasing(levels)
    ensures Decreasing(r) && forall i | 0 <= i < |r| :: r[i] > 0
    ensures forall l: nat :: l in r <==> l in levels && l > 0
  {
    if levels != [] && levels[|levels| - 1] == 0 then
      assert levels == levels[..|levels| - 1] + [0];
      levels[..|levels| - 1]
    else levels
  }

  lemma DownShifts(levels: seq<nat>, l: nat)
    requires forall i | 0 <= i < |levels| :: levels[i] > 0
    ensures l in Down(levels) <==> l + 1 in levels
  {
    if l + 1 in levels {
      var k :| 0 <= k < |levels| && levels[k] == l + 1;
      assert Down(levels)[k] == l;
    }
  }

  lemma HalfOfSum(levels: seq<nat>)
    requires Decreasing(levels)
    ensures Sum(levels) / 2 == Sum(Down(Upper(levels)))
    ensures Sum(levels) % 2 == 1 <==> 0 in levels
  {
    DownHalves(Upper(levels));
    if 0 in levels {
      var k :| 0 <= k < |levels| && levels[k] == 0;
      assert k == |levels| - 1;
    }
  }

  /** Strictly decreasing levels that add up to n are exactly the positions of the ones of n. */
  lemma {:induction false} LevelsAreBinaryDigits(levels: seq<nat>, i: nat)
    requires Decreasing(levels)
    ensures i in levels <==> Bit(Sum(levels), i)
    decreases i
  {
    HalfOfSum(levels);
    if i > 0 {
      DownHalves(Upper(levels));
      LevelsAreBinaryDigits(Down(Upper(levels)), i - 1);
      DownShifts(Upper(levels), i - 1);
    }
  }

  function Levels(peaks: seq<Peak>): seq<nat> {
    seq(|peaks|, i requires 0 <= i < |peaks| => peaks[i].level)
  }

  lemma {:induction false} PeakLevels(blocks: seq<BlockId>, peaks: seq<Peak>, upTo: nat)
    requires upTo <= |blocks| && Covers(blocks, peaks, upTo)
    ensures Decreasing(Levels(peaks)) && Sum(Levels(peaks)) == upTo
    decreases |peaks|
  {
    if peaks != [] {
      var rest := peaks[..|peaks| - 1];
      PeakLevels(blocks, rest, upTo - Pow2(peaks[|peaks| - 1].level));
      assert Levels(peaks)[..|peaks| - 1] == Levels(rest);
      if rest != [] {
        assert Levels(rest)[|rest| - 1] > Levels(peaks)[|rest|];
      }
    }
  }

  /** After any number of appends the peak levels strictly decrease and are the binary digits of the
      leaf count. */
  lemma PeaksFollowLeafCount(m: Mmr, i: nat)
    requires m.Valid()
    ensures Decreasing(Levels(m.peaks))
    ensures i in Levels(m.peaks) <==> Bit(m.leafCount, i)
  {
    PeakLevels(m.blocks, m.peaks, m.leafCount);
    LevelsAreBinaryDigits(Levels(m.peaks), i);
  }

  // ---------------------------------------------------------------- proofs

  datatype Side = LEFT | RIGHT

  datatype Sibling = Sibling(level: nat, side: Side, hash: Hash)

  datatype Proof = Proof(
    leafHeight: nat, block: BlockId, targetPeakLevel: nat, mountainSiblings: seq<Sibling>,
    leafCount: nat, otherPeaks: seq<Peak>)

  /** Rebuilds a tree hash from a leaf; every sibling states the level at which it stands. */
  function Climb(leaf: Hash, siblings: seq<Sibling>): (hash: Hash) {
    if siblings == [] then leaf
    else
      var s := siblings[|siblings| - 1];
      var below := Climb(leaf, siblings[..|siblings| - 1]);
      if s.side.LEFT? then NodeHash(|siblings|, s.hash, below) else NodeHash(|siblings|, below, s.hash)
  }

  /** Puts a peak at its place among peaks of decreasing level. */
  function Insert(peaks: seq<Peak>, p: Peak): (r: seq<Peak>)
    ensures p in r
  {
    if peaks == [] || peaks[0].level < p.level then [p] + peaks
    else [peaks[0]] + Insert(peaks[1..], p)
  }

  /** Every level is there, from the leaf's upwards. */
  predicate BottomUp(siblings: seq<Sibling>) {
    forall i | 0 <= i < |siblings| :: siblings[i].level == i
  }

  predicate Verify(root: RootHash, proof: Proof) {
    var siblings := proof.mountainSiblings;
    var target := Peak(proof.targetPeakLevel, Climb(LeafHash(proof.leafHeight, proof.block), siblings));
    var peaks := Insert(proof.otherPeaks, target);
    && |siblings| == proof.targetPeakLevel
    && BottomUp(siblings)
    && Decreasing(Levels(peaks)) && Sum(Levels(peaks)) == proof.leafCount
    && RootHash(proof.leafCount, peaks) == root
  }

  lemma {:induction false} ClimbEndsAtALeaf(blocks: seq<BlockId>, from: nat, leaf: Hash, siblings: seq<Sibling>)
    returns (at: nat)
    requires from + Pow2(|siblings|) <= |blocks| && leaf.LeafHash?
    requires Climb(leaf, siblings) == Tree(blocks, from, |siblings|)
    ensures from <= at < from + Pow2(|siblings|) && leaf == LeafHash(at + 1, blocks[at])
    decreases |siblings|
  {
    if siblings == [] {
      at := from;
    } else {
      var n := |siblings| - 1;
      var half := if siblings[n].side.LEFT? then from + Pow2(n) else from;
      at := ClimbEndsAtALeaf(blocks, half, leaf, siblings[..n]);
    }
  }

  lemma {:induction false} CoveredPeakIsATree(blocks: seq<BlockId>, peaks: seq<Peak>, upTo: nat, p: Peak)
    returns (from: nat)
    requires upTo <= |blocks| && Covers(blocks, peaks, upTo) && p in peaks
    ensures from + Pow2(p.level) <= upTo && p.hash == Tree(blocks, from, p.level)
    decreases |peaks|
  {
    var last := peaks[|peaks| - 1];
    if p == last {
      from := upTo - Pow2(last.level);
    } else {
      from := CoveredPeakIsATree(blocks, peaks[..|peaks| - 1], upTo - Pow2(last.level), p);
    }
  }

  /** The path of block `at` inside the perfect tree, bottom up. */
  function Path(blocks: seq<BlockId>, from: nat, level: nat, at: nat): (siblings: seq<Sibling>)
    requires from <= at < from + Pow2(level) <= |blocks|
    ensures |siblings| == level
    decreases level
  {
    if level == 0 then []
    else
      var middle := from + Pow2(level - 1);
      if at < middle then
        Path(blocks, from, level - 1, at) + [Sibling(level - 1, RIGHT, Tree(blocks, middle, level - 1))]
      else
        Path(blocks, middle, level - 1, at) + [Sibling(level - 1, LEFT, Tree(blocks, from, level - 1))]
  }

  lemma PathOfHalf(blocks: seq<BlockId>, from: nat, n: nat, at: nat)
    requires from <= at < from + Pow2(n + 1) <= |blocks|
    ensures var middle := from + Pow2(n);
      && middle + Pow2(n) == from + Pow2(n + 1)
      && Path(blocks, from, n + 1, at) ==
           if at < middle then Path(blocks, from, n, at) + [Sibling(n, RIGHT, Tree(blocks, middle, n))]
           else Path(blocks, middle, n, at) + [Sibling(n, LEFT, Tree(blocks, from, n))]
  {
  }

  lemma ClimbOne(leaf: Hash, below: seq<Sibling>, last: Sibling)
    requires BottomUp(below) && last.level == |below|
    ensures BottomUp(below + [last])
    ensures Climb(leaf, below + [last]) == if last.side.LEFT? then NodeHash(|below| + 1, last.hash, Climb(leaf, below))
                                           else NodeHash(|below| + 1, Climb(leaf, below), last.hash)
  {
    assert (below + [last])[..|below|] == below;
  }

  lemma {:induction false} PathClimbs(blocks: seq<BlockId>, from: nat, level: nat, at: nat)
    requires from <= at < from + Pow2(level) <= |blocks|
    ensures Climb(LeafHash(at + 1, blocks[at]), Path(blocks, from, level, at)) == Tree(blocks, from, level)
    ensures BottomUp(Path(blocks, from, level, at))
    decreases level
  {
    if level > 0 {
      var n := level - 1;
      PathOfHalf(blocks, from, n, at);
      var middle := from + Pow2(n);
      assert Tree(blocks, from, level) == NodeHash(level, Tree(blocks, from, n), Tree(blocks, middle, n));
      hide Tree, Climb, Path, Pow2, BottomUp;
      var half := if at < middle then from else middle;
      PathClimbs(blocks, half, n, at);
      ClimbOne(LeafHash(at + 1, blocks[at]), Path(blocks, half, n, at),
        if at < middle then Sibling(n, RIGHT, Tree(blocks, middle, n)) else Sibling(n, LEFT, Tree(blocks, from, n)));
    }
  }

  /** Which peak covers block `at`, and where the interval of that peak begins. */
  ghost function Locate(blocks: seq<BlockId>, peaks: seq<Peak>, upTo: nat, at: nat): (r: (nat, nat))
    requires at < upTo <= |blocks| && Covers(blocks, peaks, upTo)
    ensures r.0 < |peaks| && r.1 <= at < r.1 + Pow2(peaks[r.0].level) <= upTo
    ensures peaks[r.0].hash == Tree(blocks, r.1, peaks[r.0].level)
    decreases |peaks|
  {
    var n := |peaks| - 1;
    var start := upTo - Pow2(peaks[n].level);
    if at >= start then (n, start) else Locate(blocks, peaks[..n], start, at)
  }

  /** The proof for the block at a height: its path in the mountain that covers it, and the other peaks. */
  ghost function Generate(m: Mmr, height: nat): Proof
    reads m
    requires m.Valid() && 1 <= height <= |m.blocks|
  {
    var (k, from) := Locate(m.blocks, m.peaks, m.leafCount, height - 1);
    Proof(height, m.blocks[height - 1], m.peaks[k].level, Path(m.blocks, from, m.peaks[k].level, height - 1),
          m.leafCount, m.peaks[..k] + m.peaks[k + 1..])
  }

  lemma {:induction false} InsertRestores(peaks: seq<Peak>, k: nat)
    requires k < |peaks| && Decreasing(Levels(peaks))
    ensures Insert(peaks[..k] + peaks[k + 1..], peaks[k]) == peaks
  {
    var others := peaks[..k] + peaks[k + 1..];
    if k == 0 {
      assert others == peaks[1..];
      if others != [] {
        assert Levels(peaks)[0] > Levels(peaks)[1];
      }
    } else {
      assert Levels(peaks)[0] > Levels(peaks)[k];
      forall i, j | 0 <= i < j < |peaks[1..]|
        ensures Levels(peaks[1..])[i] > Levels(peaks[1..])[j]
      {
        assert Levels(peaks)[i + 1] > Levels(peaks)[j + 1];
      }
      InsertRestores(peaks[1..], k - 1);
      assert others[1..] == peaks[1..][..k - 1] + peaks[1..][k..];
    }
  }

  /** A proof verifies only for the block that really stands at its height. */
  lemma ProofsAreSound(m: Mmr, proof: Proof)
    requires m.Valid() && Verify(m.Root(), proof)
    ensures proof.leafCount == |m.blocks|
    ensures 1 <= proof.leafHeight <= |m.blocks| && m.blocks[proof.leafHeight - 1] == proof.block
  {
    var leaf := LeafHash(proof.leafHeight, proof.block);
    var target := Peak(proof.targetPeakLevel, Climb(leaf, proof.mountainSiblings));
    assert target in m.peaks;
    var from := CoveredPeakIsATree(m.blocks, m.peaks, m.leafCount, target);
    var at := ClimbEndsAtALeaf(m.blocks, from, leaf, proof.mountainSiblings);
  }

  /** And every block has a proof that verifies. */
  lemma EveryBlockHasAProof(m: Mmr, height: nat) returns (proof: Proof)
    requires m.Valid() && 1 <= height <= |m.blocks|
    ensures proof == Generate(m, height)
    ensures proof.leafHeight == height && proof.block == m.blocks[height - 1]
    ensures Verify(m.Root(), proof)
  {
    hide Covers, Tree, Path, Climb, Insert, Locate;
    var (k, from) := Locate(m.blocks, m.peaks, m.leafCount, height - 1);
    PathClimbs(m.blocks, from, m.peaks[k].level, height - 1);
    PeakLevels(m.blocks, m.peaks, m.leafCount);
    InsertRestores(m.peaks, k);
    proof := Generate(m, height);
  }

  /** The last step of a climb joins the two halves of the tree. */
  lemma LastStep(blocks: seq<BlockId>, from: nat, leaf: Hash, siblings: seq<Sibling>)
    requires from + Pow2(|siblings|) <= |blocks| && siblings != []
    requires Climb(leaf, siblings) == Tree(blocks, from, |siblings|)
    ensures var n := |siblings| - 1;
      var (last, below, middle) := (siblings[n], Climb(leaf, siblings[..n]), from + Pow2(n));
      && middle + Pow2(n) == from + Pow2(n + 1)
      && (last.side.LEFT? ==> last.hash == Tree(blocks, from, n) && below == Tree(blocks, middle, n))
      && (last.side.RIGHT? ==> last.hash == Tree(blocks, middle, n) && below == Tree(blocks, from, n))
  {
  }

  lemma TopSibling(siblings: seq<Sibling>)
    requires siblings != [] && BottomUp(siblings)
    ensures var n := |siblings| - 1;
      && |siblings[..n]| == n && BottomUp(siblings[..n])
      && siblings[n].level == n && siblings == siblings[..n] + [siblings[n]]
  {
  }

  lemma NothingToClimb(blocks: seq<BlockId>, from: nat, at: nat, block: BlockId)
    requires from + Pow2(0) <= |blocks| && Climb(LeafHash(at + 1, block), []) == Tree(blocks, from, 0)
    ensures Pow2(0) == 1 && from == at && block == blocks[at] && Path(blocks, from, 0, at) == []
  {
  }

  /** Only the path of the leaf climbs to the tree: every hash and every side is determined. */
  lemma {:induction false} ClimbIsPath(
      blocks: seq<BlockId>, from: nat, at: nat, block: BlockId, siblings: seq<Sibling>)
    requires from + Pow2(|siblings|) <= |blocks| && BottomUp(siblings)
    requires Climb(LeafHash(at + 1, block), siblings) == Tree(blocks, from, |siblings|)
    ensures from <= at < from + Pow2(|siblings|) && block == blocks[at]
    ensures siblings == Path(blocks, from, |siblings|, at)
    decreases |siblings|
  {
    hide Tree, Climb, Path, Pow2, BottomUp;
    if siblings == [] {
      NothingToClimb(blocks, from, at, block);
    } else {
      var n := |siblings| - 1;
      LastStep(blocks, from, LeafHash(at + 1, block), siblings);
      TopSibling(siblings);
      ClimbIsPath(blocks, if siblings[n].side.LEFT? then from + Pow2(n) else from, at, block, siblings[..n]);
      PathOfHalf(blocks, from, n, at);
    }
  }

  /** A peak that a leaf climbs to is the one that covers the leaf's height. */
  lemma {:induction false} ClimbedPeakIsLocated(
      blocks: seq<BlockId>, peaks: seq<Peak>, upTo: nat, j: nat, at: nat, block: BlockId, siblings: seq<Sibling>)
    requires upTo <= |blocks| && Covers(blocks, peaks, upTo) && j < |peaks| && |siblings| == peaks[j].level
    requires BottomUp(siblings)
    requires Climb(LeafHash(at + 1, block), siblings) == peaks[j].hash
    ensures at < upTo && block == blocks[at]
    ensures var (k, from) := Locate(blocks, peaks, upTo, at);
      k == j && siblings == Path(blocks, from, |siblings|, at)
    decreases |peaks|
  {
    var n := |peaks| - 1;
    var start := upTo - Pow2(peaks[n].level);
    if j == n {
      ClimbIsPath(blocks, start, at, block, siblings);
    } else {
      ClimbedPeakIsLocated(blocks, peaks[..n], start, j, at, block, siblings);
    }
  }

  lemma {:induction false} InsertPosition(others: seq<Peak>, p: Peak) returns (i: nat)
    ensures i <= |others| && Insert(others, p) == others[..i] + [p] + others[i..]
    decreases |others|
  {
    if others == [] || others[0].level < p.level {
      i := 0;
    } else {
      var k := InsertPosition(others[1..], p);
      i := k + 1;
      assert others == [others[0]] + others[1..];
    }
  }

  lemma VerifiedParts(m: Mmr, proof: Proof) returns (j: nat)
    requires m.Valid() && Verify(m.Root(), proof)
    ensures 1 <= proof.leafHeight <= |m.blocks| && proof.leafCount == m.leafCount
    ensures j < |m.peaks| && proof.otherPeaks == m.peaks[..j] + m.peaks[j + 1..]
    ensures |proof.mountainSiblings| == proof.targetPeakLevel == m.peaks[j].level
    ensures BottomUp(proof.mountainSiblings)
    ensures Climb(LeafHash(proof.leafHeight, proof.block), proof.mountainSiblings) == m.peaks[j].hash
  {
    ProofsAreSound(m, proof);
    hide Covers, Tree, Climb, Insert, Decreasing, Sum, Levels, BottomUp;
    var target := Peak(proof.targetPeakLevel, Climb(LeafHash(proof.leafHeight, proof.block), proof.mountainSiblings));
    j := InsertPosition(proof.otherPeaks, target);
  }

  /** A proof verifies exactly if it is the generated proof of the block at its height: no other
      siblings, sides, levels or peaks pass. */
  lemma OnlyGeneratedProofsVerify(m: Mmr, proof: Proof)
    requires m.Valid()
    ensures Verify(m.Root(), proof) <==>
      1 <= proof.leafHeight <= |m.blocks| && proof == Generate(m, proof.leafHeight)
  {
    if 1 <= proof.leafHeight <= |m.blocks| {
      var generated := EveryBlockHasAProof(m, proof.leafHeight);
    }
    if Verify(m.Root(), proof) {
      hide Covers, Tree, Path, Climb, Locate, Verify, BottomUp;
      var j := VerifiedParts(m, proof);
      ClimbedPeakIsLocated(m.blocks, m.peaks, m.leafCount, j, proof.leafHeight - 1, proof.block, proof.mountainSiblings);
    }
  }

  /** The peaks, and with them the root, are a function of the appended blocks. */
  lemma {:induction false} PeaksAreDetermined(blocks: seq<BlockId>, a: seq<Peak>, b: seq<Peak>, upTo: nat)
    requires upTo <= |blocks| && Covers(blocks, a, upTo) && Covers(blocks, b, upTo)
    ensures a == b
    decreases |a|
  {
    if a == [] || b == [] {
    } else {
      var la, lb := a[|a| - 1], b[|b| - 1];
      LastLevelIsLowestDigit(blocks, a, upTo);
      LastLevelIsLowestDigit(blocks, b, upTo);
      assert la.level == lb.level;
      PeaksAreDetermined(blocks, a[..|a| - 1], b[..|b| - 1], upTo - Pow2(la.level));
      assert a == a[..|a| - 1] + [la] && b == b[..|b| - 1] + [lb];
    }
  }

  lemma LastLevelIsLowestDigit(blocks: seq<BlockId>, peaks: seq<Peak>, upTo: nat)
    requires upTo <= |blocks| && Covers(blocks, peaks, upTo) && peaks != []
    ensures Bit(upTo, peaks[|peaks| - 1].level)
    ensures forall i | 0 <= i < peaks[|peaks| - 1].level :: !Bit(upTo, i)
  {
    var levels := Levels(peaks);
    PeakLevels(blocks, peaks, upTo);
    LevelsAreBinaryDigits(levels, levels[|levels| - 1]);
    forall i | 0 <= i < levels[|levels| - 1]
      ensures !Bit(upTo, i)
    {
      LevelsAreBinaryDigits(levels, i);
    }
  }

  /** Under injective hashing the root binds the whole history: equal roots, equal blocks. */
  lemma RootBindsHistory(m: Mmr, other: Mmr)
    requires m.Valid() && other.Valid()
    ensures m.Root() == other.Root() <==> m.blocks == other.blocks
  {
    if m.Root() == other.Root() {
      forall i | 0 <= i < |m.blocks|
        ensures m.blocks[i] == other.blocks[i]
      {
        var proof := EveryBlockHasAProof(m, i + 1);
        ProofsAreSound(other, proof);
      }
    }
    if m.blocks == other.blocks {
      PeaksAreDetermined(m.blocks, m.peaks, other.peaks, m.leafCount);
    }
  }
}
