/** The proposer schedule of one epoch (doc/protocol/03-finaldag-consensus.md, section 4). The
    per-cycle permutation is whatever sorting by rank key yields; nothing here depends on which. */
module Schedule {
  import opened Quorum

  datatype Slot = Slot(round: nat, rank: nat)

  /** SlotKey order: by round, then by rank. */
  predicate Before(s: Slot, t: Slot) {
    s.round < t.round || (s.round == t.round && s.rank < t.rank)
  }

  predicate IsPermutation(s: seq<nat>, n: nat) {
    && |s| == n
    && (forall i | 0 <= i < n :: s[i] < n)
    && (forall i, j | 0 <= i < j < n :: s[i] != s[j])
  }

  /** The aligned n-round cycle of a round, and the round's place in it. */
  function CycleOf(round: nat, n: nat): nat
    requires 1 <= round && 1 <= n
  {
    (round - 1) / n
  }

  function OffsetOf(round: nat, n: nat): (r: nat)
    requires 1 <= round && 1 <= n
    ensures r < n
  {
    (round - 1) % n
  }

  function Entry(offset: nat, rank: nat, n: nat): (r: nat)
    requires 1 <= n
    ensures r < n
  {
    (offset + rank) % n
  }

  /** An epoch's frozen parameters. proposer is the cached schedule table, which must be
      recomputable from the per-cycle permutations by the formula of ScheduledProposer. */
  datatype Epoch = Epoch(
    params: Parameters, slotsPerRound: nat, permutation: nat -> seq<nat>, proposer: Slot -> nat)
  {
    ghost predicate Valid() {
      && params.Valid()
      && 1 <= slotsPerRound <= params.quorum
      && (forall cycle: nat :: IsPermutation(permutation(cycle), params.validatorCount))
      && (forall s {:trigger ScheduledProposer(s)} | IsSlot(s) :: proposer(s) == ScheduledProposer(s))
    }

    function ScheduledProposer(s: Slot): (author: nat)
      requires params.Valid() && IsSlot(s)
      requires forall cycle: nat :: IsPermutation(permutation(cycle), params.validatorCount)
      ensures author < params.validatorCount
    {
      var n := params.validatorCount;
      assert IsPermutation(permutation(CycleOf(s.round, n)), n);
      permutation(CycleOf(s.round, n))[Entry(OffsetOf(s.round, n), s.rank, n)]
    }

    predicate IsSlot(s: Slot) {
      1 <= s.round && s.rank < slotsPerRound
    }

    /** The slot that follows s in the global order. */
    function Next(s: Slot): (t: Slot)
      requires IsSlot(s)
      ensures IsSlot(t) && Before(s, t)
      ensures forall u | IsSlot(u) && Before(s, u) :: u == t || Before(t, u)
    {
      if s.rank + 1 < slotsPerRound then Slot(s.round, s.rank + 1) else Slot(s.round + 1, 0)
    }
  }

  lemma SmallShiftsDiffer(offset: nat, j: nat, k: nat, n: nat)
    requires j < k < n && offset < n
    ensures Entry(offset, j, n) != Entry(offset, k, n)
  {
    EntryIsShift(offset, j, n);
    EntryIsShift(offset, k, n);
  }

  lemma EntryIsShift(offset: nat, j: nat, n: nat)
    requires j < n && offset < n
    ensures Entry(offset, j, n) == if offset + j < n then offset + j else offset + j - n
  {
    if offset + j < n {
      Quotient(offset + j, n, 0, offset + j);
    } else {
      Quotient(offset + j, n, 1, offset + j - n);
    }
  }

  /** The P proposers of a round are pairwise different, so a vertex fits at most one slot. */
  lemma ProposersOfARoundDiffer(e: Epoch, s: Slot, t: Slot)
    requires e.Valid() && e.IsSlot(s) && e.IsSlot(t)
    requires s.round == t.round && s.rank != t.rank
    ensures e.proposer(s) != e.proposer(t)
  {
    var n := e.params.validatorCount;
    var lo, hi := if s.rank < t.rank then s.rank else t.rank, if s.rank < t.rank then t.rank else s.rank;
    SmallShiftsDiffer(OffsetOf(s.round, n), lo, hi, n);
    EntriesDiffer(e.permutation(CycleOf(s.round, n)), n,
      Entry(OffsetOf(s.round, n), s.rank, n), Entry(OffsetOf(s.round, n), t.rank, n));
    assert e.ScheduledProposer(s) != e.ScheduledProposer(t);
  }

  lemma EntriesDiffer(p: seq<nat>, n: nat, i: nat, j: nat)
    requires IsPermutation(p, n) && i < n && j < n && i != j
    ensures p[i] != p[j]
  {
    assert i < j || j < i;
  }

  lemma RoundsOfACycle(cycle: nat, i: nat, n: nat)
    requires i < n
    ensures CycleOf(cycle * n + i + 1, n) == cycle && OffsetOf(cycle * n + i + 1, n) == i
    ensures Entry(i, 0, n) == i
  {
    Quotient(cycle * n + i, n, cycle, i);
    Quotient(i, n, 0, i);
  }

  lemma Quotient(x: nat, n: nat, d: nat, r: nat)
    requires r < n && x == d * n + r
    ensures x / n == d && x % n == r
  {
    var gap: int := x / n - d;
    var width: int := n;
    assert gap * width == (x / n) * n - d * n;
    assert -width < gap * width < width;
    MultipleIsWide(gap, width);
  }

  lemma MultipleIsWide(gap: int, width: int)
    requires 0 < width
    ensures gap >= 1 ==> gap * width >= width
    ensures gap <= -1 ==> gap * width <= -width
  {
  }

  /** The primary of the i-th round of a cycle is the i-th entry of that cycle's permutation. */
  lemma PrimaryIsPermutationEntry(e: Epoch, cycle: nat, i: nat, round: nat)
    requires e.Valid() && i < e.params.validatorCount
    requires round == cycle * e.params.validatorCount + i + 1
    ensures e.proposer(Slot(round, 0)) == e.permutation(cycle)[i]
  {
    RoundsOfACycle(cycle, i, e.params.validatorCount);
    assert e.ScheduledProposer(Slot(round, 0)) == e.permutation(cycle)[i];
  }

  /** The proposer of rank j in the i-th round of a cycle is the entry j places further on, wrapping at
      the end of the permutation. */
  lemma ProposerIsShiftedEntry(e: Epoch, cycle: nat, i: nat, s: Slot)
    requires e.Valid() && e.IsSlot(s) && i < e.params.validatorCount
    requires s.round == cycle * e.params.validatorCount + i + 1
    ensures var n, p := e.params.validatorCount, e.permutation(cycle);
      && |p| == n && e.proposer(s) == (if i + s.rank < n then p[i + s.rank] else p[i + s.rank - n])
  {
    var n: nat := e.params.validatorCount;
    RoundsOfACycle(cycle, i, n);
    EntryIsShift(i, s.rank, n);
    ScheduledEntry(e, s);
    assert IsPermutation(e.permutation(cycle), n);
    hide CycleOf, OffsetOf, Entry, Epoch.Valid, Epoch.ScheduledProposer;
  }

  lemma ScheduledEntry(e: Epoch, s: Slot)
    requires e.Valid() && e.IsSlot(s)
    ensures var n, p := e.params.validatorCount, e.permutation(CycleOf(s.round, e.params.validatorCount));
      |p| == n && e.proposer(s) == p[Entry(OffsetOf(s.round, n), s.rank, n)]
  {
    hide CycleOf, OffsetOf, Entry;
    assert e.proposer(s) == e.ScheduledProposer(s);
    assert IsPermutation(e.permutation(CycleOf(s.round, e.params.validatorCount)), e.params.validatorCount);
  }

  /** The first k entries, as a set. */
  function FirstEntries(s: seq<nat>, k: nat): set<nat>
    requires k <= |s|
  {
    if k == 0 then {} else FirstEntries(s, k - 1) + {s[k - 1]}
  }

  lemma {:induction false} FirstEntryAt(s: seq<nat>, k: nat, x: nat) returns (i: nat)
    requires k <= |s| && x in FirstEntries(s, k)
    ensures i < k && s[i] == x
    decreases k
  {
    if s[k - 1] == x {
      i := k - 1;
    } else {
      i := FirstEntryAt(s, k - 1, x);
    }
  }

  lemma NewEntry(s: seq<nat>, k: nat)
    requires 0 < k <= |s| && forall i, j | 0 <= i < j < |s| :: s[i] != s[j]
    ensures s[k - 1] !in FirstEntries(s, k - 1)
  {
    hide FirstEntries;
    if s[k - 1] in FirstEntries(s, k - 1) {
      var i := FirstEntryAt(s, k - 1, s[k - 1]);
    }
  }

  lemma {:induction false} PermutationCoversPrefix(s: seq<nat>, n: nat, k: nat)
    requires IsPermutation(s, n) && k <= n
    ensures |FirstEntries(s, k)| == k && FirstEntries(s, k) <= Below(n)
    decreases k
  {
    if k > 0 {
      PermutationCoversPrefix(s, n, k - 1);
      NewEntry(s, k);
    }
  }

  lemma PermutationIsOnto(s: seq<nat>, n: nat, v: nat) returns (i: nat)
    requires IsPermutation(s, n) && v < n
    ensures i < n && s[i] == v
  {
    PermutationCoversPrefix(s, n, n);
    if v !in FirstEntries(s, n) {
      SubsetSize(FirstEntries(s, n) + {v}, Below(n));
      assert false;
    }
    i := FirstEntryAt(s, n, v);
  }

  /** In every aligned cycle each validator is primary of exactly one round. */
  lemma PrimaryExactlyOncePerCycle(e: Epoch, cycle: nat, validator: nat, start: nat) returns (round: nat)
    requires e.Valid() && validator < e.params.validatorCount
    requires start == cycle * e.params.validatorCount
    ensures start < round <= start + e.params.validatorCount
    ensures forall r: nat | start < r <= start + e.params.validatorCount
              :: e.proposer(Slot(r, 0)) == validator <==> r == round
  {
    var n := e.params.validatorCount;
    var p := e.permutation(cycle);
    var i := PermutationIsOnto(p, n, validator);
    round := start + i + 1;
    forall r: nat | start < r <= start + n
      ensures e.proposer(Slot(r, 0)) == validator <==> r == round
    {
      PrimaryIsPermutationEntry(e, cycle, r - start - 1, r);
      if r != round {
        EntriesDiffer(p, n, i, r - start - 1);
      }
    }
  }
}
