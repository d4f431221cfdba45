/** Undecided slots drain (doc/protocol/03-finaldag-consensus.md, sections 10 and 14.4): three
    consecutive directly committed primaries decide everything before them, and every three aligned
    cycles of the schedule contain three consecutive honest primaries. */
module Drainage {
  import opened Quorum
  import opened Schedule
  import opened Dag
  import opened Certificates
  import opened Decider
  import opened DeciderAgreement

  // ---------------------------------------------------------------- highest complete round

  function RoundAuthors(l: Graph, round: nat): set<nat> {
    set v | v in l && l[v].round == round :: l[v].author
  }

  predicate Complete(e: Epoch, l: Graph, round: nat) {
    1 <= round && |RoundAuthors(l, round)| >= e.params.quorum
  }

  ghost predicate IsHighestComplete(e: Epoch, l: Graph, h: nat) {
    (h == 0 || Complete(e, l, h)) && forall round | round > h :: !Complete(e, l, round)
  }

  /** Receiving more never lowers the highest complete round, so a node's calls form a run. */
  lemma HighestCompleteGrows(e: Epoch, l: Graph, h: nat, l': Graph, h': nat)
    requires ViewOf(e, l, l') && IsHighestComplete(e, l, h) && IsHighestComplete(e, l', h')
    ensures Grows(e, l, h, l', h')
  {
    if h > h' {
      SubsetSize(RoundAuthors(l, h), RoundAuthors(l', h));
      assert Complete(e, l', h);
    }
  }

  /** A held vertex makes every earlier round complete: rounds are complete without gaps. */
  lemma {:induction false} EarlierRoundsAreComplete(e: Epoch, l: Graph, v: Id, round: nat)
    requires WellFormed(e, l) && v in l && 1 <= round < l[v].round
    ensures Complete(e, l, round)
    decreases l[v].round
  {
    assert VertexOk(e, l, v);
    if round + 1 == l[v].round {
      StrongAuthorsAreDistinct(l, v, |l[v].strong|);
      SubsetSize(StrongAuthors(l, v, |l[v].strong|), RoundAuthors(l, round));
    } else {
      EarlierRoundsAreComplete(e, l, l[v].strong[0], round);
    }
  }

  // ---------------------------------------------------------------- three committed primaries

  ghost predicate PrimaryCommitted(e: Epoch, l: Graph, round: nat)
    requires WellFormed(e, l) && 1 <= round
  {
    exists p :: DirectCommit(e, l, Slot(round, 0), p)
  }

  lemma CommittedPrimaryDecides(e: Epoch, g: Graph, byzantine: set<nat>, l: Graph, h: nat, round: nat)
    requires NodeView(e, g, byzantine, l) && 1 <= round <= h && PrimaryCommitted(e, l, round)
    ensures DecisionOf(e, l, h, Slot(round, 0)).Commit?
  {
    var p :| DirectCommit(e, l, Slot(round, 0), p);
    DirectCommitIsReturned(e, g, byzantine, l, Slot(round, 0), p);
  }

  /** The primaries of k, k+1 and k+2 resolve rounds k-3, k-2 and k-1, and by nearest-anchor
      induction everything earlier. No far anchor is used across a nearer undecided one. */
  lemma {:induction false} ThreeCommittedPrimariesDrain(
      e: Epoch, g: Graph, byzantine: set<nat>, l: Graph, h: nat, k: nat, s: Slot)
    requires NodeView(e, g, byzantine, l) && 1 <= k && k + 2 <= h
    requires PrimaryCommitted(e, l, k) && PrimaryCommitted(e, l, k + 1) && PrimaryCommitted(e, l, k + 2)
    requires e.IsSlot(s) && s.round < k
    ensures !DecisionOf(e, l, h, s).Undecided?
    decreases Gap(h, s), e.slotsPerRound - s.rank
  {
    hide TryDirectDecide, CertifiedCandidates, VertexOk, DirectCommit;
    var m := if s.round + 3 <= k then k else s.round + 3;
    CommittedPrimaryDecides(e, g, byzantine, l, h, m);
    if TryDirectDecide(e, l, s).Undecided? {
      var a := AnchorIsNearest(e, l, h, e.Next(s), s.round + 2);
      assert Between(e, e.Next(s), Slot(m, 0), Slot(h + 1, 0), s.round + 2);
      if a.value != Slot(m, 0) {
        assert Before(a.value, Slot(m, 0));
        ThreeCommittedPrimariesDrain(e, g, byzantine, l, h, k, a.value);
      }
      AnchorCommitDecides(e, g, byzantine, l, h, s, a.value);
    }
  }

  // ---------------------------------------------------------------- counting honest primaries

  predicate HonestPrimary(e: Epoch, byzantine: set<nat>, round: nat)
    requires 1 <= round
  {
    e.proposer(Slot(round, 0)) !in byzantine
  }

  function HonestCount(e: Epoch, byzantine: set<nat>, from: nat, len: nat): nat
    requires 1 <= from
  {
    if len == 0 then 0
    else HonestCount(e, byzantine, from, len - 1) + (if HonestPrimary(e, byzantine, from + len - 1) then 1 else 0)
  }

  lemma {:induction false} HonestCountAdds(e: Epoch, byzantine: set<nat>, from: nat, len: nat, more: nat)
    requires 1 <= from
    ensures HonestCount(e, byzantine, from, len + more)
         == HonestCount(e, byzantine, from, len) + HonestCount(e, byzantine, from + len, more)
  {
    if more > 0 {
      HonestCountAdds(e, byzantine, from, len, more - 1);
    }
  }

  /** The n rounds after `start` run through the permutation of one cycle. */
  ghost predicate Aligned(e: Epoch, cycle: nat, start: nat)
    requires e.Valid()
  {
    && IsPermutation(e.permutation(cycle), e.params.validatorCount)
    && forall i: nat | i < e.params.validatorCount :: e.proposer(Slot(start + i + 1, 0)) == e.permutation(cycle)[i]
  }

  lemma CyclesAreAligned(e: Epoch, cycle: nat, start: nat)
    requires e.Valid() && start == cycle * e.params.validatorCount
    ensures Aligned(e, cycle, start)
  {
    forall i: nat | i < e.params.validatorCount
      ensures e.proposer(Slot(start + i + 1, 0)) == e.permutation(cycle)[i]
    {
      PrimaryIsPermutationEntry(e, cycle, i, start + i + 1);
    }
  }

  /** Honest and faulty primaries of k rounds whose primaries are distinct add up to k. */
  lemma {:induction false} CyclePrefixCount(e: Epoch, byzantine: set<nat>, entries: seq<nat>, start: nat, k: nat)
    requires k <= |entries| && forall i, j | 0 <= i < j < |entries| :: entries[i] != entries[j]
    requires forall i: nat | i < |entries| :: e.proposer(Slot(start + i + 1, 0)) == entries[i]
    ensures HonestCount(e, byzantine, start + 1, k) + |FirstEntries(entries, k) * byzantine| == k
    decreases k
  {
    if k > 0 {
      CyclePrefixCount(e, byzantine, entries, start, k - 1);
      NewEntry(entries, k);
      AddMember(FirstEntries(entries, k - 1), byzantine, entries[k - 1]);
      PrimaryOfEntry(e, byzantine, entries, start, k - 1);
    }
  }

  lemma PrimaryOfEntry(e: Epoch, byzantine: set<nat>, entries: seq<nat>, start: nat, i: nat)
    requires i < |entries|
    requires forall i: nat | i < |entries| :: e.proposer(Slot(start + i + 1, 0)) == entries[i]
    ensures HonestPrimary(e, byzantine, start + 1 + i) <==> entries[i] !in byzantine
  {
    assert start + 1 + i == start + i + 1;
  }

  lemma AddMember(a: set<nat>, b: set<nat>, x: nat)
    requires x !in a
    ensures |(a + {x}) * b| == |a * b| + if x in b then 1 else 0
  {
    if x in b {
      assert (a + {x}) * b == a * b + {x};
    } else {
      assert (a + {x}) * b == a * b;
    }
  }

  /** Every aligned cycle has at least q honest primaries. */
  lemma CycleHasQuorumOfHonestPrimaries(e: Epoch, byzantine: set<nat>, cycle: nat, start: nat)
    requires e.Valid() && |byzantine| <= e.params.maxByzantine && Aligned(e, cycle, start)
    ensures HonestCount(e, byzantine, start + 1, e.params.validatorCount) >= e.params.quorum
  {
    var n := e.params.validatorCount;
    CyclePrefixCount(e, byzantine, e.permutation(cycle), start, n);
    SubsetSize(FirstEntries(e.permutation(cycle), n) * byzantine, byzantine);
    assert n == 3 * e.params.maxByzantine + 1;
  }

  predicate HonestTriple(e: Epoch, byzantine: set<nat>, k: nat)
    requires 1 <= k
  {
    HonestPrimary(e, byzantine, k) && HonestPrimary(e, byzantine, k + 1) && HonestPrimary(e, byzantine, k + 2)
  }

  lemma TripleCount(e: Epoch, byzantine: set<nat>, k: nat)
    requires 1 <= k && !HonestTriple(e, byzantine, k)
    ensures HonestCount(e, byzantine, k, 3) <= 2
  {
    assert HonestCount(e, byzantine, k, 1) <= if HonestPrimary(e, byzantine, k) then 1 else 0;
    assert HonestCount(e, byzantine, k, 2)
        == HonestCount(e, byzantine, k, 1) + if HonestPrimary(e, byzantine, k + 1) then 1 else 0;
  }

  /** A stretch with more than two honest primaries per three rounds has three in a row. */
  lemma {:induction false} DenseStretchHasATriple(e: Epoch, byzantine: set<nat>, from: nat, triples: nat)
    returns (k: nat)
    requires 1 <= from && HonestCount(e, byzantine, from, 3 * triples) > 2 * triples
    ensures from <= k && k + 3 <= from + 3 * triples && HonestTriple(e, byzantine, k)
  {
    k := from + 3 * (triples - 1);
    if !HonestTriple(e, byzantine, k) {
      TripleCount(e, byzantine, k);
      HonestCountAdds(e, byzantine, from, 3 * (triples - 1), 3);
      k := DenseStretchHasATriple(e, byzantine, from, triples - 1);
    }
  }

  lemma ThreeCyclesAreDense(e: Epoch, byzantine: set<nat>, cycle: nat, start: nat)
    requires e.Valid() && |byzantine| <= e.params.maxByzantine
    requires Aligned(e, cycle, start)
    requires Aligned(e, cycle + 1, start + e.params.validatorCount)
    requires Aligned(e, cycle + 2, start + 2 * e.params.validatorCount)
    ensures HonestCount(e, byzantine, start + 1, 3 * e.params.validatorCount) > 2 * e.params.validatorCount
  {
    hide Aligned, HonestCount, IsPermutation;
    var n := e.params.validatorCount;
    CycleHasQuorumOfHonestPrimaries(e, byzantine, cycle, start);
    CycleHasQuorumOfHonestPrimaries(e, byzantine, cycle + 1, start + n);
    CycleHasQuorumOfHonestPrimaries(e, byzantine, cycle + 2, start + 2 * n);
    HonestCountAdds(e, byzantine, start + 1, n, n);
    HonestCountAdds(e, byzantine, start + 1, 2 * n, n);
    assert start + 1 + n == start + n + 1 && start + 1 + 2 * n == start + 2 * n + 1;
    assert n + n == 2 * n && 2 * n + n == 3 * n;
    assert n == 3 * e.params.maxByzantine + 1;
  }

  /** Three aligned cycles always contain three consecutive honest primaries. */
  lemma ThreeCyclesContainAnHonestTriple(e: Epoch, byzantine: set<nat>, cycle: nat, start: nat) returns (k: nat)
    requires e.Valid() && |byzantine| <= e.params.maxByzantine
    requires start == cycle * e.params.validatorCount
    ensures start + 1 <= k && k + 2 <= start + 3 * e.params.validatorCount
    ensures HonestTriple(e, byzantine, k)
  {
    ThreeCyclesAreAligned(e, cycle, start);
    ThreeCyclesAreDense(e, byzantine, cycle, start);
    k := DenseStretchHasATriple(e, byzantine, start + 1, e.params.validatorCount);
  }

  lemma ThreeCyclesAreAligned(e: Epoch, cycle: nat, start: nat)
    requires e.Valid() && start == cycle * e.params.validatorCount
    ensures Aligned(e, cycle, start)
    ensures Aligned(e, cycle + 1, start + e.params.validatorCount)
    ensures Aligned(e, cycle + 2, start + 2 * e.params.validatorCount)
  {
    CyclesAreAligned(e, cycle, start);
    CyclesAreAligned(e, cycle + 1, start + e.params.validatorCount);
    CyclesAreAligned(e, cycle + 2, start + 2 * e.params.validatorCount);
  }

  // ---------------------------------------------------------------- the decision horizon

  /** The cycle index of the first aligned cycle that starts at or after round x. */
  function CeilCycle(x: nat, n: nat): (c: nat)
    requires 1 <= x && 1 <= n
  {
    (x - 1 + n - 1) / n
  }

  function DecisionHorizon(e: Epoch, round: nat, good: nat): nat
    requires e.params.Valid()
  {
    var n := e.params.validatorCount;
    var x := if round + 3 < good then good else round + 3;
    (1 + CeilCycle(x, n) * n) + 3 * n + 1
  }

  lemma CeilCycleStartsLateEnough(x: nat, n: nat)
    requires 1 <= x && 1 <= n
    ensures CeilCycle(x, n) * n + 1 >= x
  {
    var y := x - 1 + n - 1;
    assert y == (y / n) * n + y % n;
  }

  /** The horizon lies three cycles and a round behind the first aligned cycle that starts at or after
      both the third round above the slot and `good`, and so at most four cycles behind them. */
  lemma HorizonIsNear(e: Epoch, round: nat, good: nat, x: nat, b: nat)
    requires e.params.Valid() && x == (if round + 3 < good then good else round + 3)
    requires x <= b < x + e.params.validatorCount && (b - 1) % e.params.validatorCount == 0
    ensures DecisionHorizon(e, round, good) == b + 3 * e.params.validatorCount + 1
    ensures DecisionHorizon(e, round, good) <= x + 4 * e.params.validatorCount
  {
    var n: nat := e.params.validatorCount;
    var c := (b - 1) / n;
    assert b - 1 == c * n;
    Quotient(x - 1 + n - 1, n, c, x - 1 + n - 1 - c * n);
  }

  /** From round `good` on, every honest primary is directly committed as soon as its three rounds
      are complete: what partial synchrony delivers. */
  ghost predicate HonestPrimariesCommit(e: Epoch, byzantine: set<nat>, l: Graph, h: nat, good: nat)
    requires WellFormed(e, l)
  {
    forall k | 1 <= k && good <= k && k + 2 <= h && HonestPrimary(e, byzantine, k) :: PrimaryCommitted(e, l, k)
  }

  /** Once the highest complete round passes the horizon, no slot of the round is undecided. */
  lemma DecidedByHorizon(e: Epoch, g: Graph, byzantine: set<nat>, l: Graph, h: nat, s: Slot, good: nat)
    requires NodeView(e, g, byzantine, l) && HonestPrimariesCommit(e, byzantine, l, h, good)
    requires e.IsSlot(s) && h >= DecisionHorizon(e, s.round, good)
    ensures s.round <= h && !DecisionOf(e, l, h, s).Undecided?
  {
    hide TryDirectDecide, CertifiedCandidates, VertexOk, DecisionOf, PrimaryCommitted;
    var n := e.params.validatorCount;
    var x := if s.round + 3 < good then good else s.round + 3;
    var cycle := CeilCycle(x, n);
    var start := cycle * n;
    CeilCycleStartsLateEnough(x, n);
    assert h >= start + 3 * n + 2 && start + 1 >= x;
    var k := ThreeCyclesContainAnHonestTriple(e, byzantine, cycle, start);
    ThreeCommittedPrimariesDrain(e, g, byzantine, l, h, k, s);
  }
}
