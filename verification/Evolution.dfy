/** What one action can do to the proposals already on record. */
module Evolution {
  import opened Text
  import opened FundModel
  import opened Rules
  import opened Protocol
  import Service

  /** The same record, with its status kept or moved along one edge of TRANSITIONS. */
  predicate Evolves(p: Proposal, q: Proposal) {
    && q.id == p.id && q.proposer == p.proposer && q.topic == p.topic && q.thesis == p.thesis
    && q.legs == p.legs && q.maxCapital == p.maxCapital && q.maxDrawdownBps == p.maxDrawdownBps && q.ideaBy == p.ideaBy
    && (q.status == p.status || q.status in Transitions(p.status))
  }

  predicate AllEvolve(ps: seq<Proposal>, qs: seq<Proposal>) {
    |ps| <= |qs| && forall i :: 0 <= i < |ps| ==> Evolves(ps[i], qs[i])
  }

  /** Actions that may add a claim, drop one, or change an agent. */
  predicate MovesClaims(a: Action) {
    a.ClaimTopic? || a.ReleaseClaim? || a.RequestDraft? || a.DraftProposal? || a.RemoveAgent?
  }

  predicate MovesAgents(a: Action) {
    a.RequestAgent? || a.ApproveAgent? || a.RemoveAgent?
  }

  predicate ActsOnOneProposal(a: Action) {
    a.ShipDraft? || a.SetStatus? || a.SetChainState? || a.ApplyChainStatus? || a.RecordMemberVote? || a.RecordAgentReview?
    || a.RecordSettle?
  }

  function RefOf(a: Action): Ref
    requires ActsOnOneProposal(a)
  {
    if a.ApplyChainStatus? then Local(a.id) else a.ref
  }

  /** At most the named proposal changes, and only by evolving it. */
  predicate ChangesOnly(s: FundState, o: Outcome, ref: Ref) {
    var r := ProposalIndex(s.proposals, ref);
    o.Done? ==> if r.None? then o.state == s else ChangedAt(s, o.state, r.value)
  }

  predicate ChangedAt(s: FundState, t: FundState, r: nat)
    requires r < |s.proposals|
  {
    && t.agents == s.agents && t.claims == s.claims && t.members == s.members && t.nextProposalSeq == s.nextProposalSeq
    && |t.proposals| == |s.proposals|
    && t.proposals == s.proposals[r := t.proposals[r]]
    && Evolves(s.proposals[r], t.proposals[r])
  }

  lemma ShipChanges(s: FundState, ref: Ref, caller: Option<string>, now: Time)
    ensures ChangesOnly(s, Service.ShipDraft(s, ref, caller, now), ref)
  {}

  /** What a status move that was not refused does. */
  lemma SetStatusDone(s: FundState, actor: string, ref: Ref, target: Option<Status>, onchainId: Option<int>, now: Time)
    requires Service.SetStatus(s, actor, ref, target, onchainId, now).Done?
    ensures var r := ProposalIndex(s.proposals, ref);
            && r.Some? && target.Some? && target.value in Transitions(s.proposals[r.value].status)
            && Service.SetStatus(s, actor, ref, target, onchainId, now).state ==
               Service.AfterMove(s, r.value, target.value, onchainId, now)
  {}

  lemma SetStatusChanges(s: FundState, actor: string, ref: Ref, target: Option<Status>, onchainId: Option<int>, now: Time)
    ensures ChangesOnly(s, Service.SetStatus(s, actor, ref, target, onchainId, now), ref)
  {
    var r := ProposalIndex(s.proposals, ref);
    if Service.SetStatus(s, actor, ref, target, onchainId, now).Done? {
      SetStatusDone(s, actor, ref, target, onchainId, now);
      MoveChanges(s, r.value, target.value, onchainId, now);
    }
  }

  lemma MoveChanges(s: FundState, r: nat, target: Status, onchainId: Option<int>, now: Time)
    requires r < |s.proposals| && target in Transitions(s.proposals[r].status)
    ensures ChangedAt(s, Service.AfterMove(s, r, target, onchainId, now), r)
  {}

  lemma ReadingChanges(s: FundState, ref: Ref, x: Service.Reading)
    ensures ChangesOnly(s, Service.SetChainState(s, ref, x), ref)
  {}

  lemma ChainStatusChanges(s: FundState, id: nat, state: Service.ChainState, now: Time)
    ensures ChangesOnly(s, Service.ApplyChainStatus(s, id, state, now), Local(id))
  {}

  lemma VoteChanges(s: FundState, ref: Ref, voter: string, ballot: Service.Ballot, now: Time)
    ensures ChangesOnly(s, Service.RecordMemberVote(s, ref, voter, ballot, now), ref)
  {}

  lemma ReviewChanges(s: FundState, ref: Ref, agent: string, ballot: Service.Ballot)
    ensures ChangesOnly(s, Service.RecordAgentReview(s, ref, agent, ballot), ref)
  {}

  lemma SettleChanges(s: FundState, actor: string, ref: Ref, pnl: int, now: Time)
    ensures ChangesOnly(s, Service.RecordSettle(s, actor, ref, pnl, now), ref)
  {}

  lemma MoveStep(s: FundState, a: Action, now: Time)
    requires a.SetStatus? || a.ApplyChainStatus? || a.RecordSettle?
    ensures ChangesOnly(s, Apply(s, a, now), RefOf(a))
  {
    match a {
      case SetStatus(actor, ref, target, onchainId) => SetStatusChanges(s, actor, ref, target, onchainId, now);
      case ApplyChainStatus(id, state) => ChainStatusChanges(s, id, state, now);
      case RecordSettle(actor, ref, pnl) => SettleChanges(s, actor, ref, pnl, now);
    }
  }

  lemma NoteStep(s: FundState, a: Action, now: Time)
    requires a.ShipDraft? || a.SetChainState? || a.RecordMemberVote? || a.RecordAgentReview?
    ensures ChangesOnly(s, Apply(s, a, now), RefOf(a))
  {
    match a {
      case ShipDraft(ref, caller) => ShipChanges(s, ref, caller, now);
      case SetChainState(ref, reading) => ReadingChanges(s, ref, reading);
      case RecordMemberVote(ref, voter, ballot) => VoteChanges(s, ref, voter, ballot, now);
      case RecordAgentReview(ref, agent, ballot) => ReviewChanges(s, ref, agent, ballot);
    }
  }

  /** An action on one proposal changes at most the one it names. */
  lemma OneProposalStep(s: FundState, a: Action, now: Time)
    requires ActsOnOneProposal(a)
    ensures ChangesOnly(s, Apply(s, a, now), RefOf(a))
  {
    if a.SetStatus? || a.ApplyChainStatus? || a.RecordSettle? {
      MoveStep(s, a, now);
    } else {
      NoteStep(s, a, now);
    }
  }

  /** What the actions on agents, claims, members and the fund record leave alone. */
  predicate LeavesProposals(s: FundState, a: Action, t: FundState) {
    && (!MovesClaims(a) ==> t.claims == s.claims)
    && (!MovesAgents(a) ==> t.agents == s.agents)
    && (!a.DraftProposal? ==> |t.proposals| == |s.proposals| && t.nextProposalSeq == s.nextProposalSeq)
    && (!a.DraftProposal? && !a.RemoveAgent? ==> t.proposals == s.proposals)
    && AllEvolve(s.proposals, t.proposals)
    && t.receipts == s.receipts
  }

  lemma AgentActionStep(s: FundState, a: Action, now: Time)
    requires MovesAgents(a)
    ensures LeavesProposals(s, a, Next(s, a, now))
  {
    if a.RemoveAgent? {
      RemoveStep(s, a, now);
    } else {
      JoinStep(s, a, now);
    }
  }

  lemma JoinStep(s: FundState, a: Action, now: Time)
    requires a.RequestAgent? || a.ApproveAgent?
    ensures LeavesProposals(s, a, Next(s, a, now))
  {
    match a {
      case RequestAgent(_, _, _) =>
      case ApproveAgent(_, _, _, _) =>
    }
  }

  lemma RemoveStep(s: FundState, a: Action, now: Time)
    requires a.RemoveAgent?
    ensures LeavesProposals(s, a, Next(s, a, now))
  {}

  lemma ClaimActionStep(s: FundState, a: Action, now: Time)
    requires MovesClaims(a) && !MovesAgents(a)
    ensures LeavesProposals(s, a, Next(s, a, now))
  {
    match a {
      case ClaimTopic(_, _) =>
      case ReleaseClaim(_, _) =>
      case RequestDraft(_, _, _) =>
      case DraftProposal(_, _) =>
    }
  }

  lemma RecordActionStep(s: FundState, a: Action, now: Time)
    requires a.RequestMembership? || a.ApproveMember? || a.ApplyFundCard? || a.Configure?
    ensures LeavesProposals(s, a, Next(s, a, now))
  {
    match a {
      case RequestMembership(_, _) =>
      case ApproveMember(_, _, _, _) =>
      case ApplyFundCard(_) =>
      case Configure(_) =>
    }
  }

  /** The other actions leave the recorded proposals alone, but for drafting and removing. */
  lemma OtherStep(s: FundState, a: Action, now: Time)
    requires !ActsOnOneProposal(a)
    ensures LeavesProposals(s, a, Next(s, a, now))
  {
    if MovesAgents(a) {
      AgentActionStep(s, a, now);
    } else if MovesClaims(a) {
      ClaimActionStep(s, a, now);
    } else {
      RecordActionStep(s, a, now);
    }
  }

  /** Every action lets every recorded proposal at most take one legal step. */
  lemma StepEvolves(s: FundState, a: Action, now: Time)
    ensures AllEvolve(s.proposals, Next(s, a, now).proposals)
  {
    if ActsOnOneProposal(a) {
      OneProposalStep(s, a, now);
    } else {
      OtherStep(s, a, now);
    }
  }
}
