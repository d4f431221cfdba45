/** The slot decider (doc/protocol/03-finaldag-consensus.md, sections 8.3, 9 and 10): direct decision,
    indirect decision through the nearest anchor, and the decided prefix. */
module Decider {
  import opened Wrappers
  import opened Schedule
  import opened Dag
  import opened Certificates

  datatype Decision = Undecided | Skip | Commit(proposal: Id) | SafetyHalt

  /** One entry of the deque: both the direct and the final decision are kept. */
  datatype Record = Record(slot: Slot, direct: Decision, final: Decision)

  // ---------------------------------------------------------------- direct decision

  predicate IsLeast(m: Id, ids: set<Id>) {
    m in ids && forall x | x in ids :: m <= x
  }

  lemma {:induction false} LeastExists(ids: set<Id>)
    requires ids != {}
    ensures exists m :: IsLeast(m, ids)
  {
    var k :| k in ids;
    if ids == {k} {
      assert IsLeast(k, ids);
    } else {
      LeastExists(ids - {k});
      var m :| IsLeast(m, ids - {k});
      assert forall x | x in ids :: x == k || x in ids - {k};
      assert IsLeast(if k < m then k else m, ids);
    }
  }

  function Least(ids: set<Id>): (m: Id)
    requires ids != {}
    ensures IsLeast(m, ids)
  {
    LeastExists(ids);
    var m :| m in ids && IsLeast(m, ids);
    m
  }

  /** The proposals of s seen in l that are directly committed there. */
  function CommittedProposals(e: Epoch, l: Graph, s: Slot): set<Id>
    requires WellFormed(e, l) && e.IsSlot(s)
  {
    set p | p in l && InSlot(e, l, p, s) && DirectCommit(e, l, s, p)
  }

  function TryDirectDecide(e: Epoch, l: Graph, s: Slot): (d: Decision)
    requires WellFormed(e, l) && e.IsSlot(s)
    ensures d.Commit? ==> d.proposal in l && InSlot(e, l, d.proposal, s)
    ensures d != SafetyHalt
  {
    if DirectSkip(e, l, s) then Skip
    else
      var committed := CommittedProposals(e, l, s);
      if committed == {} then Undecided else Commit(Least(committed))
  }

  // ---------------------------------------------------------------- indirect decision

  /** The first later record that may serve as anchor: round above `bound`, not directly skipped,
      undecided or committed. */
  function FirstAnchorAfter(records: seq<Record>, bound: nat): (r: Option<Record>)
    ensures r.Some? ==> r.value in records && (r.value.final.Undecided? || r.value.final.Commit?)
  {
    if records == [] then None
    else if records[0].slot.round > bound && records[0].direct != Skip
            && (records[0].final.Undecided? || records[0].final.Commit?) then Some(records[0])
    else FirstAnchorAfter(records[1..], bound)
  }

  function FromCandidates(candidates: set<Id>): Decision {
    if |candidates| == 1 then Commit(Least(candidates))
    else if |candidates| > 1 then SafetyHalt
    else Skip
  }

  function TryIndirectDecide(e: Epoch, l: Graph, s: Slot, records: seq<Record>): (d: Decision)
    requires WellFormed(e, l) && e.IsSlot(s)
    requires forall r | r in records :: r.final.Commit? ==> r.final.proposal in l
    ensures d.Commit? ==> d.proposal in l && InSlot(e, l, d.proposal, s)
  {
    var anchor := FirstAnchorAfter(records, s.round + 2);
    if anchor.None? then Undecided
    else if anchor.value.final.Undecided? then Undecided
    else FromCandidates(CertifiedCandidates(e, l, anchor.value.final.proposal, s))
  }

  // ---------------------------------------------------------------- the whole decision sequence

  function Gap(h: nat, s: Slot): nat {
    if s.round <= h then h - s.round + 1 else 0
  }

  /** The records of s and of every later slot up to round h, in slot order. */
  function Sequence(e: Epoch, l: Graph, h: nat, s: Slot): (records: seq<Record>)
    requires WellFormed(e, l) && e.IsSlot(s)
    ensures forall r | r in records :: r.final.Commit? ==> r.final.proposal in l
    decreases Gap(h, s), e.slotsPerRound - s.rank, 1
  {
    if s.round > h then [] else [RecordOf(e, l, h, s)] + Sequence(e, l, h, e.Next(s))
  }

  function RecordOf(e: Epoch, l: Graph, h: nat, s: Slot): (r: Record)
    requires WellFormed(e, l) && e.IsSlot(s) && s.round <= h
    ensures r.slot == s
    ensures r.final.Commit? ==> r.final.proposal in l && InSlot(e, l, r.final.proposal, s)
    decreases Gap(h, s), e.slotsPerRound - s.rank, 0
  {
    var direct := TryDirectDecide(e, l, s);
    Record(s, direct,
      if direct.Undecided? then TryIndirectDecide(e, l, s, Sequence(e, l, h, e.Next(s))) else direct)
  }

  function DecisionOf(e: Epoch, l: Graph, h: nat, s: Slot): Decision
    requires WellFormed(e, l) && e.IsSlot(s) && s.round <= h
  {
    RecordOf(e, l, h, s).final
  }

  /** What may be emitted from slot s on: decisions up to the earliest undecided slot. */
  function DecidedPrefix(e: Epoch, l: Graph, h: nat, s: Slot): seq<(Slot, Decision)>
    requires WellFormed(e, l) && e.IsSlot(s)
    decreases Gap(h, s), e.slotsPerRound - s.rank
  {
    if s.round > h || DecisionOf(e, l, h, s).Undecided? then []
    else [(s, DecisionOf(e, l, h, s))] + DecidedPrefix(e, l, h, e.Next(s))
  }

  /** A tagged cursor: no slot has been emitted yet, or this one was the last. */
  datatype Cursor = BeforeFirstSlot | LastEmitted(slot: Slot)

  function Start(e: Epoch, last: Cursor): (s: Slot)
    requires e.Valid() && (last.LastEmitted? ==> e.IsSlot(last.slot))
    ensures e.IsSlot(s)
  {
    match last
    case BeforeFirstSlot => Slot(1, 0)
    case LastEmitted(t) => e.Next(t)
  }

  predicate AtOrBefore(s: Slot, last: Cursor) {
    last.LastEmitted? && (s == last.slot || Before(s, last.slot))
  }

  lemma SequenceStep(e: Epoch, l: Graph, h: nat, s: Slot)
    requires WellFormed(e, l) && e.IsSlot(s) && s.round <= h
    ensures Sequence(e, l, h, s) == [RecordOf(e, l, h, s)] + Sequence(e, l, h, e.Next(s))
  {
  }

  ghost predicate HaltsSomewhere(e: Epoch, l: Graph, h: nat)
    requires WellFormed(e, l)
  {
    exists s | e.IsSlot(s) && s.round <= h :: DecisionOf(e, l, h, s) == SafetyHalt
  }

  /** One step of the descending loop: the record of s in front of the records after s. */
  method DecideSlot(e: Epoch, l: Graph, h: nat, s: Slot, later: seq<Record>) returns (record: Record)
    requires WellFormed(e, l) && e.IsSlot(s) && s.round <= h
    requires later == Sequence(e, l, h, e.Next(s))
    ensures record == RecordOf(e, l, h, s)
    ensures [record] + later == Sequence(e, l, h, s)
  {
    var direct := TryDirectDecide(e, l, s);
    var d := direct;
    if direct.Undecided? {
      d := TryIndirectDecide(e, l, s, later);
    }
    record := Record(s, direct, d);
    SequenceStep(e, l, h, s);
  }

  /** The descending double loop that fills the deque from its front. */
  method DeriveSequence(e: Epoch, l: Graph, h: nat, lower: nat)
    returns (halted: bool, sequence: seq<Record>)
    requires WellFormed(e, l) && 1 <= lower
    ensures halted ==> HaltsSomewhere(e, l, h)
    ensures !halted ==> sequence == Sequence(e, l, h, Slot(lower, 0))
  {
    halted, sequence := false, [];
    if lower > h {
      return;
    }
    var round: nat := h;
    while round >= lower
      invariant lower - 1 <= round <= h
      invariant sequence == Sequence(e, l, h, Slot(round + 1, 0))
    {
      var rank: nat := e.slotsPerRound;
      while rank > 0
        invariant rank <= e.slotsPerRound
        invariant sequence == Sequence(e, l, h,
                    if rank < e.slotsPerRound then Slot(round, rank) else Slot(round + 1, 0))
      {
        hide Sequence, RecordOf, WellFormed;
        rank := rank - 1;
        var record := DecideSlot(e, l, h, Slot(round, rank), sequence);
        if record.final.SafetyHalt? {
          halted := true;
          assert DecisionOf(e, l, h, Slot(round, rank)) == SafetyHalt;
          return;
        }
        sequence := [record] + sequence;
      }
      round := round - 1;
    }
  }

  function Cut(records: seq<Record>, last: Cursor): seq<(Slot, Decision)> {
    if records == [] then []
    else if AtOrBefore(records[0].slot, last) then Cut(records[1..], last)
    else if records[0].final.Undecided? then []
    else [(records[0].slot, records[0].final)] + Cut(records[1..], last)
  }

  /** The ascending loop: skip what was emitted before, stop at the first undecided slot. */
  method CutAtFirstUndecided(records: seq<Record>, last: Cursor) returns (prefix: seq<(Slot, Decision)>)
    ensures prefix == Cut(records, last)
  {
    prefix := [];
    var i := 0;
    while i < |records|
      invariant 0 <= i <= |records|
      invariant prefix + Cut(records[i..], last) == Cut(records, last)
    {
      var record := records[i];
      assert records[i..][0] == record && records[i..][1..] == records[i + 1..];
      if AtOrBefore(record.slot, last) {
      } else if record.final.Undecided? {
        return;
      } else {
        prefix := prefix + [(record.slot, record.final)];
      }
      i := i + 1;
    }
  }

  lemma {:induction false} CutIsDecidedPrefix(e: Epoch, l: Graph, h: nat, s: Slot, last: Cursor)
    requires WellFormed(e, l) && e.IsSlot(s)
    requires last.LastEmitted? ==> e.IsSlot(last.slot)
    ensures !AtOrBefore(s, last) ==> Cut(Sequence(e, l, h, s), last) == DecidedPrefix(e, l, h, s)
    ensures AtOrBefore(s, last) ==> Cut(Sequence(e, l, h, s), last) == DecidedPrefix(e, l, h, Start(e, last))
    decreases Gap(h, s), e.slotsPerRound - s.rank
  {
    if s.round <= h {
      var records := Sequence(e, l, h, s);
      SequenceStep(e, l, h, s);
      assert records[0] == RecordOf(e, l, h, s) && records[1..] == Sequence(e, l, h, e.Next(s));
      CutIsDecidedPrefix(e, l, h, e.Next(s), last);
      if AtOrBefore(s, last) {
        NextOfLast(e, s, last);
      }
    }
  }

  /** The decider as written. */
  method TryDecide(e: Epoch, l: Graph, last: Cursor, h: nat)
    returns (halted: bool, prefix: seq<(Slot, Decision)>)
    requires WellFormed(e, l)
    requires last.LastEmitted? ==> e.IsSlot(last.slot)
    ensures !halted ==> prefix == DecidedPrefix(e, l, h, Start(e, last))
    ensures halted ==> HaltsSomewhere(e, l, h)
  {
    halted, prefix := false, [];
    if h == 0 {
      return;
    }
    var lower := if last.BeforeFirstSlot? || last.slot.round < 1 then 1 else last.slot.round;
    var sequence;
    halted, sequence := DeriveSequence(e, l, h, lower);
    if !halted {
      prefix := CutAtFirstUndecided(sequence, last);
      CutIsDecidedPrefix(e, l, h, Slot(lower, 0), last);
    }
  }

  lemma NextOfLast(e: Epoch, at: Slot, last: Cursor)
    requires e.Valid() && e.IsSlot(at) && last.LastEmitted? && e.IsSlot(last.slot)
    requires AtOrBefore(at, last)
    ensures AtOrBefore(e.Next(at), last) || e.Next(at) == Start(e, last)
  {
  }
}
