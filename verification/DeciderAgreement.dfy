/** Safety of the slot decider over different local views of one DAG
    (doc/protocol/03-finaldag-consensus.md, sections 9, 10 and 15): agreement, monotone and
    comparable prefixes, and incremental emission. */
module DeciderAgreement {
  import opened Wrappers
  import opened Schedule
  import opened Dag
  import opened Certificates
  import opened Decider

  /** l is what one node holds of the global DAG g, in which at most f authors are Byzantine. */
  ghost predicate NodeView(e: Epoch, g: Graph, byzantine: set<nat>, l: Graph) {
    ViewOf(e, l, g) && FaultBound(e, g, byzantine)
  }

  // ---------------------------------------------------------------- direct decisions

  /** A direct decision taken in a view is a fact of the global DAG. */
  lemma DirectIsGlobal(e: Epoch, g: Graph, byzantine: set<nat>, l: Graph, s: Slot)
    requires NodeView(e, g, byzantine, l) && e.IsSlot(s)
    ensures TryDirectDecide(e, l, s).Skip? ==> DirectSkip(e, g, s)
    ensures TryDirectDecide(e, l, s).Commit? ==> DirectCommit(e, g, s, TryDirectDecide(e, l, s).proposal)
  {
    var d := TryDirectDecide(e, l, s);
    if d.Commit? {
      assert d.proposal in CommittedProposals(e, l, s);
      ViewDirect(e, l, g, s, d.proposal);
    } else {
      ViewDirect(e, l, g, s, 0);
    }
  }

  /** Checking skip or commit first makes no difference: the decider returns whichever holds. */
  lemma DirectCommitIsReturned(e: Epoch, g: Graph, byzantine: set<nat>, l: Graph, s: Slot, p: Id)
    requires NodeView(e, g, byzantine, l) && e.IsSlot(s)
    requires DirectCommit(e, l, s, p)
    ensures TryDirectDecide(e, l, s) == Commit(p)
  {
    ViewDirect(e, l, g, s, p);
    LocalFaultBound(e, g, byzantine, l);
    DirectDecisionsAgree(e, l, byzantine, s, p, p);
    assert p in CommittedProposals(e, l, s);
    var least := Least(CommittedProposals(e, l, s));
    DirectDecisionsAgree(e, l, byzantine, s, p, least);
  }

  lemma LocalFaultBound(e: Epoch, g: Graph, byzantine: set<nat>, l: Graph)
    requires NodeView(e, g, byzantine, l)
    ensures FaultBound(e, l, byzantine)
  {
  }

  // ---------------------------------------------------------------- anchors

  /** t lies in the decided range of slots between s (included) and u (excluded), above `bound`. */
  predicate Between(e: Epoch, s: Slot, t: Slot, u: Slot, bound: nat) {
    e.IsSlot(t) && (t == s || Before(s, t)) && Before(t, u) && t.round > bound
  }

  predicate Eligible(d: Decision) {
    d.Undecided? || d.Commit?
  }

  /** The condition on the direct decision adds nothing: a record qualifies by its final decision. */
  lemma DirectSkipTestIsRedundant(e: Epoch, l: Graph, h: nat, s: Slot)
    requires WellFormed(e, l) && e.IsSlot(s) && s.round <= h
    ensures var r := RecordOf(e, l, h, s);
      (r.direct != Skip && (r.final.Undecided? || r.final.Commit?)) <==> (r.final != Skip && r.final != SafetyHalt)
  {
  }

  /** The anchor is the nearest eligible slot: everything between is skipped. */
  lemma {:induction false} AnchorIsNearest(e: Epoch, l: Graph, h: nat, s: Slot, bound: nat)
    returns (a: Option<Slot>)
    requires WellFormed(e, l) && e.IsSlot(s)
    ensures FirstAnchorAfter(Sequence(e, l, h, s), bound).Some? <==> a.Some?
    ensures a.Some? ==>
      && e.IsSlot(a.value) && (a.value == s || Before(s, a.value)) && bound < a.value.round <= h
      && FirstAnchorAfter(Sequence(e, l, h, s), bound).value == RecordOf(e, l, h, a.value)
      && Eligible(DecisionOf(e, l, h, a.value))
      && forall t | Between(e, s, t, a.value, bound) :: !Eligible(DecisionOf(e, l, h, t))
    ensures a.None? ==> forall t | Between(e, s, t, Slot(h + 1, 0), bound) :: !Eligible(DecisionOf(e, l, h, t))
    decreases Gap(h, s), e.slotsPerRound - s.rank
  {
    var records := Sequence(e, l, h, s);
    if s.round > h {
      a := None;
    } else {
      SequenceStep(e, l, h, s);
      var head := RecordOf(e, l, h, s);
      assert records[0] == head && records[1..] == Sequence(e, l, h, e.Next(s));
      DirectSkipTestIsRedundant(e, l, h, s);
      if s.round > bound && Eligible(head.final) {
        a := Some(s);
      } else {
        a := AnchorIsNearest(e, l, h, e.Next(s), bound);
      }
    }
  }

  /** An indirect decision is what the nearest committed anchor's past says. */
  lemma IndirectUsesNearestAnchor(e: Epoch, l: Graph, h: nat, s: Slot) returns (a: Slot)
    requires WellFormed(e, l) && e.IsSlot(s) && s.round <= h
    requires TryDirectDecide(e, l, s).Undecided? && !DecisionOf(e, l, h, s).Undecided?
    ensures e.IsSlot(a) && Before(s, a) && s.round + 2 < a.round <= h
    ensures DecisionOf(e, l, h, a).Commit?
    ensures forall t | Between(e, e.Next(s), t, a, s.round + 2) :: !Eligible(DecisionOf(e, l, h, t))
    ensures DecisionOf(e, l, h, s) ==
      FromCandidates(CertifiedCandidates(e, l, DecisionOf(e, l, h, a).proposal, s))
  {
    hide TryDirectDecide, CertifiedCandidates, VertexOk;
    var anchor := AnchorIsNearest(e, l, h, e.Next(s), s.round + 2);
    a := anchor.value;
  }

  lemma AnchorRound(e: Epoch, l: Graph, h: nat, a: Slot)
    requires WellFormed(e, l) && e.IsSlot(a) && a.round <= h && DecisionOf(e, l, h, a).Commit?
    ensures var p := DecisionOf(e, l, h, a).proposal; p in l && l[p].round == a.round
  {
  }

  lemma DirectDecisionIsFinal(e: Epoch, l: Graph, h: nat, s: Slot)
    requires WellFormed(e, l) && e.IsSlot(s) && s.round <= h
    requires !TryDirectDecide(e, l, s).Undecided?
    ensures DecisionOf(e, l, h, s) == TryDirectDecide(e, l, s)
  {
  }

  // ---------------------------------------------------------------- no safety halt

  lemma OneCandidateDecision(e: Epoch, g: Graph, byzantine: set<nat>, l: Graph, s: Slot, anchor: Id)
    requires NodeView(e, g, byzantine, l) && e.IsSlot(s) && anchor in l
    ensures !FromCandidates(CertifiedCandidates(e, l, anchor, s)).SafetyHalt?
    ensures !FromCandidates(CertifiedCandidates(e, l, anchor, s)).Undecided?
  {
    LocalFaultBound(e, g, byzantine, l);
    AtMostOneCandidate(e, l, byzantine, s, anchor);
  }

  /** SAFETY_HALT is unreachable: no slot of any view decides to halt. */
  lemma NeverHalts(e: Epoch, g: Graph, byzantine: set<nat>, l: Graph, h: nat)
    requires NodeView(e, g, byzantine, l)
    ensures !HaltsSomewhere(e, l, h)
  {
    forall s | e.IsSlot(s) && s.round <= h
      ensures DecisionOf(e, l, h, s) != SafetyHalt
    {
      if TryDirectDecide(e, l, s).Undecided? && !DecisionOf(e, l, h, s).Undecided? {
        var a := IndirectUsesNearestAnchor(e, l, h, s);
        OneCandidateDecision(e, g, byzantine, l, s, DecisionOf(e, l, h, a).proposal);
      }
    }
  }

  // ---------------------------------------------------------------- agreement

  /** An indirect decision repeats a direct decision that any other view took. */
  lemma IndirectRepeatsDirect(e: Epoch, g: Graph, byzantine: set<nat>, l: Graph, l': Graph, h': nat, s: Slot)
    requires NodeView(e, g, byzantine, l) && NodeView(e, g, byzantine, l')
    requires e.IsSlot(s) && s.round <= h'
    requires !TryDirectDecide(e, l, s).Undecided?
    requires TryDirectDecide(e, l', s).Undecided? && !DecisionOf(e, l', h', s).Undecided?
    ensures DecisionOf(e, l', h', s) == TryDirectDecide(e, l, s)
  {
    hide TryDirectDecide, CertifiedCandidates, VertexOk, DirectCommit, DirectSkip, DecisionOf;
    var a := IndirectUsesNearestAnchor(e, l', h', s);
    AnchorRound(e, l', h', a);
    var anchor := DecisionOf(e, l', h', a).proposal;
    ViewCandidates(e, l', g, anchor, s);
    DirectIsGlobal(e, g, byzantine, l, s);
    var d := TryDirectDecide(e, l, s);
    if d.Commit? {
      DirectCommitFixesCandidates(e, g, byzantine, s, d.proposal, anchor);
    } else {
      DirectSkipLeavesNoCandidate(e, g, byzantine, s, anchor);
    }
  }

  lemma DirectDecisionsMatch(e: Epoch, g: Graph, byzantine: set<nat>, l: Graph, l': Graph, s: Slot)
    requires NodeView(e, g, byzantine, l) && NodeView(e, g, byzantine, l') && e.IsSlot(s)
    requires !TryDirectDecide(e, l, s).Undecided? && !TryDirectDecide(e, l', s).Undecided?
    ensures TryDirectDecide(e, l, s) == TryDirectDecide(e, l', s)
  {
    DirectIsGlobal(e, g, byzantine, l, s);
    DirectIsGlobal(e, g, byzantine, l', s);
    var d, d' := TryDirectDecide(e, l, s), TryDirectDecide(e, l', s);
    if d.Commit? {
      DirectDecisionsAgree(e, g, byzantine, s, d.proposal, if d'.Commit? then d'.proposal else 0);
    } else if d'.Commit? {
      DirectDecisionsAgree(e, g, byzantine, s, d'.proposal, d'.proposal);
    }
  }

  function MaxRound(h: nat, h': nat): nat { if h < h' then h' else h }

  /** Decision agreement: two nodes that both decide a slot decide it alike, however different their
      views, their highest rounds and the mix of direct and indirect rules they used. */
  lemma {:induction false} Agreement(
      e: Epoch, g: Graph, byzantine: set<nat>, l: Graph, h: nat, l': Graph, h': nat, s: Slot)
    requires NodeView(e, g, byzantine, l) && NodeView(e, g, byzantine, l')
    requires e.IsSlot(s) && s.round <= h && s.round <= h'
    requires !DecisionOf(e, l, h, s).Undecided? && !DecisionOf(e, l', h', s).Undecided?
    ensures DecisionOf(e, l, h, s) == DecisionOf(e, l', h', s)
    decreases Gap(MaxRound(h, h'), s), e.slotsPerRound - s.rank
  {
    hide TryDirectDecide, CertifiedCandidates, VertexOk, DecisionOf;
    var direct, direct' := TryDirectDecide(e, l, s), TryDirectDecide(e, l', s);
    if !direct.Undecided? && !direct'.Undecided? {
      DirectDecisionsMatch(e, g, byzantine, l, l', s);
      DirectDecisionIsFinal(e, l, h, s);
      DirectDecisionIsFinal(e, l', h', s);
    } else if !direct.Undecided? {
      IndirectRepeatsDirect(e, g, byzantine, l, l', h', s);
      DirectDecisionIsFinal(e, l, h, s);
    } else if !direct'.Undecided? {
      IndirectRepeatsDirect(e, g, byzantine, l', l, h, s);
      DirectDecisionIsFinal(e, l', h', s);
    } else {
      var a := IndirectUsesNearestAnchor(e, l, h, s);
      var a' := IndirectUsesNearestAnchor(e, l', h', s);
      AnchorsMatch(e, g, byzantine, l, h, l', h', s, a, a');
      Agreement(e, g, byzantine, l, h, l', h', a);
      AnchorRound(e, l, h, a);
      AnchorRound(e, l', h', a);
      var anchor := DecisionOf(e, l, h, a).proposal;
      ViewCandidates(e, l, g, anchor, s);
      ViewCandidates(e, l', g, anchor, s);
    }
  }

  lemma {:induction false} AnchorsMatch(
      e: Epoch, g: Graph, byzantine: set<nat>, l: Graph, h: nat, l': Graph, h': nat, s: Slot, a: Slot, a': Slot)
    requires NodeView(e, g, byzantine, l) && NodeView(e, g, byzantine, l')
    requires e.IsSlot(s) && s.round <= h && s.round <= h'
    requires e.IsSlot(a) && Before(s, a) && s.round + 2 < a.round <= h && DecisionOf(e, l, h, a).Commit?
    requires e.IsSlot(a') && Before(s, a') && s.round + 2 < a'.round <= h' && DecisionOf(e, l', h', a').Commit?
    requires forall t | Between(e, e.Next(s), t, a, s.round + 2) :: !Eligible(DecisionOf(e, l, h, t))
    requires forall t | Between(e, e.Next(s), t, a', s.round + 2) :: !Eligible(DecisionOf(e, l', h', t))
    ensures a == a'
    decreases Gap(MaxRound(h, h'), s), e.slotsPerRound - s.rank, 0
  {
    if Before(a, a') {
      assert Between(e, e.Next(s), a, a', s.round + 2);
      Agreement(e, g, byzantine, l, h, l', h', a);
      assert false;
    } else if Before(a', a) {
      assert Between(e, e.Next(s), a', a, s.round + 2);
      Agreement(e, g, byzantine, l, h, l', h', a');
      assert false;
    }
  }

  // ---------------------------------------------------------------- views that grow

  /** l' is a later view of the same node: it holds more and is complete at least as far. */
  ghost predicate Grows(e: Epoch, l: Graph, h: nat, l': Graph, h': nat) {
    ViewOf(e, l, l') && h <= h'
  }

  lemma DirectSurvivesGrowth(e: Epoch, g: Graph, byzantine: set<nat>, l: Graph, l': Graph, s: Slot)
    requires NodeView(e, g, byzantine, l) && NodeView(e, g, byzantine, l') && ViewOf(e, l, l')
    requires e.IsSlot(s) && !TryDirectDecide(e, l, s).Undecided?
    ensures TryDirectDecide(e, l', s) == TryDirectDecide(e, l, s)
  {
    var d := TryDirectDecide(e, l, s);
    if d.Commit? {
      assert d.proposal in CommittedProposals(e, l, s);
      ViewDirect(e, l, l', s, d.proposal);
      DirectCommitIsReturned(e, g, byzantine, l', s, d.proposal);
    } else {
      ViewDirect(e, l, l', s, 0);
    }
  }

  /** A decision is never withdrawn nor changed when the view grows. */
  lemma {:induction false} DecisionSurvivesGrowth(
      e: Epoch, g: Graph, byzantine: set<nat>, l: Graph, h: nat, l': Graph, h': nat, s: Slot)
    requires NodeView(e, g, byzantine, l) && NodeView(e, g, byzantine, l') && Grows(e, l, h, l', h')
    requires e.IsSlot(s) && s.round <= h && !DecisionOf(e, l, h, s).Undecided?
    ensures DecisionOf(e, l', h', s) == DecisionOf(e, l, h, s)
    decreases Gap(h, s), e.slotsPerRound - s.rank
  {
    hide TryDirectDecide, CertifiedCandidates, VertexOk;
    if !TryDirectDecide(e, l, s).Undecided? {
      DirectSurvivesGrowth(e, g, byzantine, l, l', s);
    } else if !TryDirectDecide(e, l', s).Undecided? {
      Agreement(e, g, byzantine, l, h, l', h', s);
    } else {
      var a := IndirectUsesNearestAnchor(e, l, h, s);
      DecisionSurvivesGrowth(e, g, byzantine, l, h, l', h', a);
      forall t | Between(e, e.Next(s), t, a, s.round + 2)
        ensures !Eligible(DecisionOf(e, l', h', t))
      {
        DecisionSurvivesGrowth(e, g, byzantine, l, h, l', h', t);
      }
      AnchorCommitDecides(e, g, byzantine, l', h', s, a);
      Agreement(e, g, byzantine, l, h, l', h', s);
    }
  }

  /** With the nearest eligible slot committed, the slot is decided. */
  lemma AnchorCommitDecides(e: Epoch, g: Graph, byzantine: set<nat>, l: Graph, h: nat, s: Slot, a: Slot)
    requires NodeView(e, g, byzantine, l) && e.IsSlot(s) && s.round <= h
    requires e.IsSlot(a) && Before(s, a) && s.round + 2 < a.round <= h && DecisionOf(e, l, h, a).Commit?
    requires forall t | Between(e, e.Next(s), t, a, s.round + 2) :: !Eligible(DecisionOf(e, l, h, t))
    ensures !DecisionOf(e, l, h, s).Undecided?
  {
    hide TryDirectDecide, CertifiedCandidates, VertexOk;
    if TryDirectDecide(e, l, s).Undecided? {
      var b := AnchorIsNearest(e, l, h, e.Next(s), s.round + 2);
      assert Between(e, e.Next(s), a, Slot(h + 1, 0), s.round + 2);
      assert b == Some(a);
      OneCandidateDecision(e, g, byzantine, l, s, DecisionOf(e, l, h, a).proposal);
    }
  }

  // ---------------------------------------------------------------- prefixes

  /** The old decided prefix is a prefix of the new one. */
  lemma {:induction false} PrefixGrows(
      e: Epoch, g: Graph, byzantine: set<nat>, l: Graph, h: nat, l': Graph, h': nat, s: Slot)
    requires NodeView(e, g, byzantine, l) && NodeView(e, g, byzantine, l') && Grows(e, l, h, l', h')
    requires e.IsSlot(s)
    ensures DecidedPrefix(e, l, h, s) <= DecidedPrefix(e, l', h', s)
    decreases Gap(h, s), e.slotsPerRound - s.rank
  {
    if s.round <= h && !DecisionOf(e, l, h, s).Undecided? {
      DecisionSurvivesGrowth(e, g, byzantine, l, h, l', h', s);
      PrefixGrows(e, g, byzantine, l, h, l', h', e.Next(s));
    }
  }

  /** The prefixes of any two nodes are comparable: no opposite orders, no forks. */
  lemma {:induction false} PrefixesAreComparable(
      e: Epoch, g: Graph, byzantine: set<nat>, l: Graph, h: nat, l': Graph, h': nat, s: Slot)
    requires NodeView(e, g, byzantine, l) && NodeView(e, g, byzantine, l') && e.IsSlot(s)
    ensures DecidedPrefix(e, l, h, s) <= DecidedPrefix(e, l', h', s)
         || DecidedPrefix(e, l', h', s) <= DecidedPrefix(e, l, h, s)
    decreases Gap(h, s), e.slotsPerRound - s.rank
  {
    if s.round <= h && !DecisionOf(e, l, h, s).Undecided?
       && s.round <= h' && !DecisionOf(e, l', h', s).Undecided? {
      Agreement(e, g, byzantine, l, h, l', h', s);
      PrefixesAreComparable(e, g, byzantine, l, h, l', h', e.Next(s));
    }
  }

  /** The cursor after emitting `prefix` from slot `s` on, and the slot at which emission resumes. */
  function CursorAfter(last: Cursor, prefix: seq<(Slot, Decision)>): Cursor {
    if prefix == [] then last else LastEmitted(prefix[|prefix| - 1].0)
  }

  lemma {:induction false} PrefixEndsBeforeResume(e: Epoch, l: Graph, h: nat, last: Cursor)
    requires WellFormed(e, l) && (last.LastEmitted? ==> e.IsSlot(last.slot))
    ensures var next := CursorAfter(last, DecidedPrefix(e, l, h, Start(e, last)));
      && (next.LastEmitted? ==> e.IsSlot(next.slot))
      && var resume := Start(e, next); resume.round > h || DecisionOf(e, l, h, resume).Undecided?
    decreases Gap(h, Start(e, last)), e.slotsPerRound - Start(e, last).rank
  {
    var s := Start(e, last);
    var prefix := DecidedPrefix(e, l, h, s);
    if prefix != [] {
      assert Start(e, LastEmitted(s)) == e.Next(s);
      PrefixEndsBeforeResume(e, l, h, LastEmitted(s));
      assert prefix[1..] == DecidedPrefix(e, l, h, e.Next(s));
    }
  }

  /** Resuming after an emitted prefix yields exactly the remainder of a run from that start. */
  lemma {:induction false} ResumeGivesRemainder(
      e: Epoch, l: Graph, h: nat, last: Cursor, emitted: seq<(Slot, Decision)>)
    requires WellFormed(e, l) && (last.LastEmitted? ==> e.IsSlot(last.slot))
    requires emitted <= DecidedPrefix(e, l, h, Start(e, last))
    ensures var next := CursorAfter(last, emitted);
      && (next.LastEmitted? ==> e.IsSlot(next.slot))
      && DecidedPrefix(e, l, h, Start(e, last)) == emitted + DecidedPrefix(e, l, h, Start(e, next))
    decreases |emitted|
  {
    assert e.Valid();
    hide WellFormed, DecidedPrefix, Start;
    if emitted == [] {
      assert CursorAfter(last, emitted) == last;
    } else {
      PrefixHead(e, l, h, last, emitted);
      var s, head, tail := Start(e, last), emitted[0], emitted[1..];
      ResumeGivesRemainder(e, l, h, LastEmitted(s), tail);
      CursorOfTail(last, emitted);
      Regroup(head, tail, DecidedPrefix(e, l, h, Start(e, CursorAfter(last, emitted))));
      assert emitted == [head] + tail;
    }
  }

  lemma CursorOfTail(last: Cursor, emitted: seq<(Slot, Decision)>)
    requires emitted != []
    ensures CursorAfter(last, emitted) == CursorAfter(LastEmitted(emitted[0].0), emitted[1..])
  {
  }

  lemma Regroup<T>(head: T, tail: seq<T>, rest: seq<T>)
    ensures [head] + (tail + rest) == ([head] + tail) + rest
  {
  }

  /** What was emitted first is the slot the cursor starts at. */
  lemma PrefixHead(e: Epoch, l: Graph, h: nat, last: Cursor, emitted: seq<(Slot, Decision)>)
    requires WellFormed(e, l) && (last.LastEmitted? ==> e.IsSlot(last.slot))
    requires emitted != [] && emitted <= DecidedPrefix(e, l, h, Start(e, last))
    ensures var s := Start(e, last);
      && emitted[0].0 == s && Start(e, LastEmitted(s)) == e.Next(s)
      && emitted[1..] <= DecidedPrefix(e, l, h, e.Next(s))
      && DecidedPrefix(e, l, h, s) == [emitted[0]] + DecidedPrefix(e, l, h, e.Next(s))
  {
    var s := Start(e, last);
    PrefixFirst(e, l, h, s);
    hide DecidedPrefix, WellFormed;
    HeadOfPrefix(emitted, (s, DecisionOf(e, l, h, s)), DecidedPrefix(e, l, h, e.Next(s)));
  }

  lemma PrefixFirst(e: Epoch, l: Graph, h: nat, s: Slot)
    requires WellFormed(e, l) && e.IsSlot(s) && DecidedPrefix(e, l, h, s) != []
    ensures s.round <= h
    ensures DecidedPrefix(e, l, h, s) == [(s, DecisionOf(e, l, h, s))] + DecidedPrefix(e, l, h, e.Next(s))
  {
    hide DecisionOf, WellFormed;
  }

  lemma HeadOfPrefix<T>(emitted: seq<T>, first: T, rest: seq<T>)
    requires emitted != [] && emitted <= [first] + rest
    ensures emitted[0] == first && emitted[1..] <= rest
  {
    assert emitted[0] == ([first] + rest)[0];
    assert ([first] + rest)[1..] == rest;
  }

  // ---------------------------------------------------------------- a node's whole run

  /** One decider call of a node: the view it had and the highest complete round it derived. */
  datatype Call = Call(view: Graph, highest: nat)

  ghost predicate Run(e: Epoch, g: Graph, byzantine: set<nat>, calls: seq<Call>) {
    && (forall i | 0 <= i < |calls| :: NodeView(e, g, byzantine, calls[i].view))
    && (forall i | 0 < i < |calls| ::
         Grows(e, calls[i - 1].view, calls[i - 1].highest, calls[i].view, calls[i].highest))
  }

  /** Everything emitted by incremental calls, each one starting where the log ended. */
  function EmittedLog(e: Epoch, calls: seq<Call>): (log: seq<(Slot, Decision)>)
    requires e.Valid() && forall i | 0 <= i < |calls| :: WellFormed(e, calls[i].view)
    ensures CursorAfter(BeforeFirstSlot, log).LastEmitted? ==> e.IsSlot(CursorAfter(BeforeFirstSlot, log).slot)
  {
    if calls == [] then []
    else
      var before := EmittedLog(e, calls[..|calls| - 1]);
      var call := calls[|calls| - 1];
      var cursor := CursorAfter(BeforeFirstSlot, before);
      var added := DecidedPrefix(e, call.view, call.highest, Start(e, cursor));
      PrefixEndsBeforeResume(e, call.view, call.highest, cursor);
      assert CursorAfter(BeforeFirstSlot, before + added) == CursorAfter(cursor, added);
      before + added
  }

  /** However the view grew, the log is what one decider call on the last view would emit. */
  lemma {:induction false} IncrementalLogIsFromScratch(e: Epoch, g: Graph, byzantine: set<nat>, calls: seq<Call>)
    requires e.Valid() && Run(e, g, byzantine, calls) && calls != []
    ensures var last := calls[|calls| - 1];
      EmittedLog(e, calls) == DecidedPrefix(e, last.view, last.highest, Slot(1, 0))
    decreases |calls|
  {
    var last := calls[|calls| - 1];
    var earlier := calls[..|calls| - 1];
    var before := EmittedLog(e, earlier);
    if earlier != [] {
      IncrementalLogIsFromScratch(e, g, byzantine, earlier);
      var previous := earlier[|earlier| - 1];
      assert previous == calls[|calls| - 2];
      PrefixGrows(e, g, byzantine, previous.view, previous.highest, last.view, last.highest, Slot(1, 0));
    }
    ResumeGivesRemainder(e, last.view, last.highest, BeforeFirstSlot, before);
  }

  /** Two nodes' logs are comparable at any time, whatever each has received and in what order. */
  lemma LogsAreComparable(e: Epoch, g: Graph, byzantine: set<nat>, mine: seq<Call>, theirs: seq<Call>)
    requires e.Valid() && Run(e, g, byzantine, mine) && Run(e, g, byzantine, theirs)
    ensures EmittedLog(e, mine) <= EmittedLog(e, theirs) || EmittedLog(e, theirs) <= EmittedLog(e, mine)
  {
    if mine != [] && theirs != [] {
      IncrementalLogIsFromScratch(e, g, byzantine, mine);
      IncrementalLogIsFromScratch(e, g, byzantine, theirs);
      var m, t := mine[|mine| - 1], theirs[|theirs| - 1];
      PrefixesAreComparable(e, g, byzantine, m.view, m.highest, t.view, t.highest, Slot(1, 0));
    }
  }
}
