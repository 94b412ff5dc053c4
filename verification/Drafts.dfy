/** Every recorded proposal is a draft that met its terms when it was made; what its ready payload keeps of them. */
module Drafts {
  import opened Text
  import opened Legs
  import opened FundModel
  import opened Rules
  import opened Protocol
  import opened Evolution
  import opened ChainRace
  import opened Terms
  import Acceptance
  import Effects
  import Payload
  import Service

  predicate Checked(p: Proposal) {
    LegsFault(p.legs, p.maxCapital).None? && p.maxCapital > 0
  }

  predicate AllChecked(ps: seq<Proposal>) {
    forall i :: 0 <= i < |ps| ==> Checked(ps[i])
  }

  lemma EvolveKeepsChecked(ps: seq<Proposal>, qs: seq<Proposal>)
    requires AllChecked(ps) && AllEvolve(ps, qs) && |ps| == |qs|
    ensures AllChecked(qs)
  {
    forall i | 0 <= i < |qs|
      ensures Checked(qs[i])
    {
      assert Checked(ps[i]) && Evolves(ps[i], qs[i]);
    }
  }

  lemma DraftIsChecked(s: FundState, agent: string, b: Brief, now: Time)
    requires Service.DraftProposal(s, agent, b, now).Done?
    ensures LegsFault(b.legs, b.maxCapital).None? && b.maxCapital > 0
  {}

  lemma DraftAdds(s: FundState, agent: string, b: Brief, now: Time)
    requires Service.DraftProposal(s, agent, b, now).Done?
    ensures var t := Service.DraftProposal(s, agent, b, now).state;
            && |t.proposals| == |s.proposals| + 1 && t.proposals[..|s.proposals|] == s.proposals
            && t.proposals[|s.proposals|].legs == b.legs && t.proposals[|s.proposals|].maxCapital == b.maxCapital
  {}

  lemma StepKeepsChecked(s: FundState, a: Action, now: Time)
    requires AllChecked(s.proposals)
    ensures AllChecked(Next(s, a, now).proposals)
  {
    var t := Next(s, a, now);
    if a.DraftProposal? {
      if Apply(s, a, now).Done? {
        DraftIsChecked(s, a.agent, a.brief, now);
        DraftAdds(s, a.agent, a.brief, now);
        assert forall i :: 0 <= i < |s.proposals| ==> t.proposals[i] == t.proposals[..|s.proposals|][i];
      }
    } else {
      StepEvolves(s, a, now);
      if ActsOnOneProposal(a) {
        OneProposalStep(s, a, now);
      } else {
        OtherStep(s, a, now);
      }
      EvolveKeepsChecked(s.proposals, t.proposals);
    }
  }

  lemma MoveKeepsChecked(s: FundState, m: Move)
    requires AllChecked(s.proposals)
    ensures AllChecked(Made(s, m).proposals)
  {
    if m.Act? {
      StepKeepsChecked(s, m.event.action, m.event.now);
    }
  }

  lemma {:induction false} RunKeepsChecked(s: FundState, moves: seq<Move>)
    requires Fresh(s)
    ensures AllChecked(AfterMoves(s, moves).proposals)
  {
    if moves != [] {
      var n := |moves| - 1;
      RunKeepsChecked(s, moves[..n]);
      MoveKeepsChecked(AfterMoves(s, moves[..n]), moves[n]);
    }
  }

  /** On every run from a fresh fund, late moves included, and at any time after it was drafted: when the payload of a recorded proposal is
      ready, every leg is in exactly one side, each side's caps stay within the envelope's maxCapital, and no call is an
      unlimited EIP-20 approve. */
  lemma RecordedPayloadIsSafe(s: FundState, moves: seq<Move>, i: nat, q: Payload.Request)
    requires Fresh(s) && i < |AfterMoves(s, moves).proposals|
    requires q.legs == AfterMoves(s, moves).proposals[i].legs && q.maxCapital == AfterMoves(s, moves).proposals[i].maxCapital
    requires Payload.Complete(q)
    ensures var b := Payload.BodyOf(q);
            && |b.executeCalls| + |b.settlementCalls| == |q.legs|
            && Payload.SumOf(b.executeCallCaps) <= q.maxCapital && Payload.SumOf(b.settlementCallCaps) <= q.maxCapital
            && (forall k :: 0 <= k < |b.executeCalls| ==> Payload.CallSafe(b.executeCalls[k]))
            && (forall k :: 0 <= k < |b.settlementCalls| ==> Payload.CallSafe(b.settlementCalls[k]))
  {
    RunKeepsChecked(s, moves);
    assert Checked(AfterMoves(s, moves).proposals[i]);
    Payload.ReadyBodyIsSafe(q);
    Payload.EnvelopeReads(q);
  }

  // ----- where a recorded proposal comes from

  /** What was drafted stays as it was. */
  predicate SameDraft(p: Proposal, q: Proposal) {
    && q.id == p.id && q.proposer == p.proposer && q.topic == p.topic && q.thesis == p.thesis
    && q.legs == p.legs && q.maxCapital == p.maxCapital && q.maxDrawdownBps == p.maxDrawdownBps && q.ideaBy == p.ideaBy
  }

  /** The record says what the agent asked for in state t: the brief under the agent's name, credited to the person named in the
      brief or else in the agent's claim. */
  ghost predicate DraftedBy(p: Proposal, t: FundState, agent: string, b: Brief, now: Time) {
    && p.topic == Strip(b.topic) && p.thesis == Strip(b.thesis) && p.legs == b.legs
    && p.maxCapital == b.maxCapital && p.maxDrawdownBps == b.maxDrawdownBps
    && (exists k: nat :: NamesAgent(t, agent, k) && p.proposer == t.agents[k].name)
    && (exists i: nat :: FirstOwn(t.claims, Lower(agent), now, i) && p.ideaBy == if b.ideaBy != "" then b.ideaBy else t.claims[i].ideaBy)
  }

  predicate Numbered(ps: seq<Proposal>, next: nat) {
    next == |ps| + 1 && forall i :: 0 <= i < |ps| ==> ps[i].id == i + 1
  }

  lemma DraftStep(s: FundState, agent: string, b: Brief, now: Time)
    requires Service.DraftProposal(s, agent, b, now).Done?
    ensures var t := Service.DraftProposal(s, agent, b, now).state;
            && |t.proposals| == |s.proposals| + 1 && t.proposals[..|s.proposals|] == s.proposals
            && DraftTerms(s, agent, b, now) && DraftedBy(t.proposals[|s.proposals|], s, agent, b, now)
            && t.proposals[|s.proposals|].id == s.nextProposalSeq && t.nextProposalSeq == s.nextProposalSeq + 1
  {
    Acceptance.DraftProposalIff(s, agent, b, now);
    Effects.DraftIs(s, agent, b, now);
  }

  predicate IsDraft(s: FundState, m: Move) {
    m.Act? && m.event.action.DraftProposal? && Apply(s, m.event.action, m.event.now).Done?
  }

  /** A move that is no draft changes nothing that was drafted, and adds nothing. */
  lemma OtherMoveKeeps(s: FundState, m: Move)
    requires !IsDraft(s, m)
    ensures var t := Made(s, m);
            && |t.proposals| == |s.proposals| && t.nextProposalSeq == s.nextProposalSeq
            && forall i :: 0 <= i < |s.proposals| ==> SameDraft(s.proposals[i], t.proposals[i])
  {
    if m.Act? {
      var a, now := m.event.action, m.event.now;
      StepEvolves(s, a, now);
      if ActsOnOneProposal(a) {
        OneProposalStep(s, a, now);
      } else if !a.DraftProposal? {
        OtherStep(s, a, now);
      }
      var t := Next(s, a, now);
      assert forall i :: 0 <= i < |s.proposals| ==> Evolves(s.proposals[i], t.proposals[i]);
    }
  }

  /** One move, with the states named. */
  lemma MoveTo(s: FundState, m: Move, t: FundState)
    requires t == Made(s, m)
    ensures |s.proposals| <= |t.proposals| && forall i :: 0 <= i < |s.proposals| ==> SameDraft(s.proposals[i], t.proposals[i])
    ensures Numbered(s.proposals, s.nextProposalSeq) ==> Numbered(t.proposals, t.nextProposalSeq)
    ensures forall i :: |s.proposals| <= i < |t.proposals| ==> i == |s.proposals| && Begins(s, m, t.proposals[i])
  {
    if IsDraft(s, m) {
      DraftStep(s, m.event.action.agent, m.event.action.brief, m.event.now);
      assert forall i :: 0 <= i < |s.proposals| ==> t.proposals[i] == t.proposals[..|s.proposals|][i];
    } else {
      OtherMoveKeeps(s, m);
    }
  }

  /** The move is the accepted draft that the record says. */
  ghost predicate Begins(s: FundState, m: Move, p: Proposal) {
    && m.Act? && m.event.action.DraftProposal?
    && DraftTerms(s, m.event.action.agent, m.event.action.brief, m.event.now)
    && DraftedBy(p, s, m.event.action.agent, m.event.action.brief, m.event.now)
  }

  lemma BeginsSame(s: FundState, m: Move, p: Proposal, q: Proposal)
    requires Begins(s, m, p) && SameDraft(p, q)
    ensures Begins(s, m, q)
  {}

  /** On every run from a fresh fund, late moves included: the i-th proposal on record has the id i + 1, and it is what an
      agent asked for at the moment when i proposals were on record, in a state and at a time in which the request met every
      term of a draft: a thesis, an active agent with a live claim on the topic and nothing open, room in the fund, asset, fee
      and cooldown, capital and drawdown within the fund's bounds, legs in order with their caps within the capital. */
  lemma {:induction false} RecordedWasAdmitted(s: FundState, moves: seq<Move>, i: nat) returns (k: nat)
    requires Fresh(s) && i < |AfterMoves(s, moves).proposals|
    ensures k < |moves| && i == |AfterMoves(s, moves[..k]).proposals|
    ensures Begins(AfterMoves(s, moves[..k]), moves[k], AfterMoves(s, moves).proposals[i])
    ensures AfterMoves(s, moves).proposals[i].id == i + 1
  {
    var n := |moves| - 1;
    var before, after := AfterMoves(s, moves[..n]), AfterMoves(s, moves);
    RunNumbers(s, moves);
    MoveTo(before, moves[n], after);
    if i < |before.proposals| {
      k := RecordedWasAdmitted(s, moves[..n], i);
      assert moves[..n][..k] == moves[..k];
      BeginsSame(AfterMoves(s, moves[..k]), moves[k], before.proposals[i], after.proposals[i]);
    } else {
      k := n;
    }
  }

  lemma {:induction false} RunNumbers(s: FundState, moves: seq<Move>)
    requires Fresh(s)
    ensures Numbered(AfterMoves(s, moves).proposals, AfterMoves(s, moves).nextProposalSeq)
  {
    if moves != [] {
      var n := |moves| - 1;
      RunNumbers(s, moves[..n]);
      MoveTo(AfterMoves(s, moves[..n]), moves[n], AfterMoves(s, moves));
    }
  }
}
