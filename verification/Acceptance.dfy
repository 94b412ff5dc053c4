/** For every action, exactly when it goes through, in the terms of the records. */
module Acceptance {
  import opened Text
  import opened Numerals
  import opened FundModel
  import opened Rules
  import opened Protocol
  import opened Terms
  import Service

  // ----- members

  /** No address is given, or it is a valid one, or the member on record has one already. */
  ghost predicate MembershipTerms(s: FundState, telegramId: string, address: string) {
    address == "" || IsAddress(address) || exists i: nat :: KnownAs(s, telegramId, address, i) && s.members[i].address != ""
  }

  /** The host approves someone on record who is not approved yet, or someone new, and a valid address is known. */
  ghost predicate ApprovalTerms(s: FundState, actor: string, who: string, address: string, caller: Option<string>) {
    && FromHost(s, caller) && IsHost(s, actor)
    && (|| (NobodyKnown(s, who, address) && (IsAddress(who) || IsAddress(address)))
        || (exists i: nat :: KnownAs(s, who, address, i) && !s.members[i].approved
              && (IsAddress(s.members[i].address) || (s.members[i].address == "" && IsAddress(address)))))
  }

  lemma KnownIs(s: FundState, who: string, address: string)
    ensures Service.Known(s, who, address).Some? ==> KnownAs(s, who, address, Service.Known(s, who, address).value)
    ensures forall i: nat :: KnownAs(s, who, address, i) ==> Service.Known(s, who, address) == Some(i)
    ensures Service.Known(s, who, address).None? <==> NobodyKnown(s, who, address)
  {
    FindsMember(s, who);
    FindsMember(s, address);
  }

  lemma MembershipIff(s: FundState, telegramId: string, address: string)
    ensures Service.RequestMembership(s, telegramId, address).Done? <==> MembershipTerms(s, telegramId, address)
  {
    KnownIs(s, telegramId, address);
  }

  lemma ApproveMemberIff(s: FundState, actor: string, who: string, address: string, caller: Option<string>)
    ensures Service.ApproveMember(s, actor, who, address, caller).Done? <==> ApprovalTerms(s, actor, who, address, caller)
  {
    KnownIs(s, who, address);
    CallerIff(s, caller);
    ActsIff(s, actor);
    EmptyIsNoAddress();
  }

  lemma EmptyIsNoAddress()
    ensures !IsAddress("")
  {}

  // ----- agents

  /** Identity and address are there, the address is no other present agent's, and nobody registered has the name. */
  ghost predicate ApplicationTerms(s: FundState, name: string, identityId: string, address: string) {
    && identityId != "" && IsAddress(address)
    && (forall i: nat :: HasAddress(s, address, i) && !s.agents[i].removed ==> Lower(s.agents[i].name) == Lower(name))
    && (forall i: nat :: NamesAgent(s, name, i) && !s.agents[i].removed ==> !s.agents[i].registered)
  }

  ghost predicate AgentApprovalTerms(s: FundState, actor: string, name: string, caller: Option<string>) {
    && FromHost(s, caller) && IsHost(s, actor)
    && exists i: nat :: MeansAgent(s, name, i) && !s.agents[i].removed && !s.agents[i].registered
                        && s.agents[i].identityId != "" && IsAddress(s.agents[i].address)
  }

  ghost predicate RemovalTerms(s: FundState, actor: string, name: string, caller: Option<string>) {
    && FromHost(s, caller) && IsHost(s, actor)
    && exists i: nat :: MeansAgent(s, name, i) && !s.agents[i].removed && s.agents[i].role == Guest
  }

  lemma ApplicationIff(s: FundState, name: string, identityId: string, address: string)
    ensures Service.RequestAgent(s, name, identityId, address).Done? <==> ApplicationTerms(s, name, identityId, address)
  {
    FindsAgent(s, name);
    FindsByAddress(s, address);
  }

  lemma AgentApprovalIff(s: FundState, actor: string, name: string, landed: bool, caller: Option<string>)
    ensures Service.ApproveAgent(s, actor, name, landed, caller).Done? <==> AgentApprovalTerms(s, actor, name, caller)
  {
    FindsTarget(s, name);
    CallerIff(s, caller);
    ActsIff(s, actor);
  }

  lemma RemovalIff(s: FundState, actor: string, name: string, caller: Option<string>)
    ensures Service.RemoveAgent(s, actor, name, caller).Done? <==> RemovalTerms(s, actor, name, caller)
  {
    FindsTarget(s, name);
    CallerIff(s, caller);
    ActsIff(s, actor);
  }

  // ----- claims and drafts

  lemma ClaimTopicIff(s: FundState, agent: string, topic: string, now: Time)
    ensures Service.ClaimTopic(s, agent, topic, now).Done? <==> ClaimTerms(s, agent, topic, now)
  {
    ClaimIff(s, agent, topic, now);
  }

  lemma RequestDraftIff(s: FundState, agent: string, ideaBy: string, topic: string, now: Time)
    ensures Service.RequestDraft(s, agent, ideaBy, topic, now).Done? <==> ClaimTerms(s, agent, Strip(topic), now)
  {
    ClaimIff(s, agent, Strip(topic), now);
  }

  lemma DraftProposalIff(s: FundState, agent: string, b: Brief, now: Time)
    ensures Service.DraftProposal(s, agent, b, now).Done? <==> DraftTerms(s, agent, b, now)
  {
    DraftIff(s, agent, b, now);
  }

  // ----- proposals

  /** The host ships a draft that has legs and a capital while the fund does not cool. */
  ghost predicate ShipTerms(s: FundState, ref: Ref, caller: Option<string>, now: Time) {
    && FromHost(s, caller) && !Cooling(s.fund, now)
    && exists r: nat :: NamesProposal(s, ref, r) && s.proposals[r].status == Draft
                        && s.proposals[r].legs != [] && s.proposals[r].maxCapital > 0
  }

  /** The proposer, registered and present, or for anybody else's proposal an active host. */
  ghost predicate MaySteer(s: FundState, actor: string, p: Proposal) {
    if Lower(actor) == Lower(p.proposer) then Active(s, actor) else IsHost(s, actor)
  }

  ghost predicate StatusTerms(s: FundState, actor: string, ref: Ref, target: Option<Status>, now: Time) {
    exists r: nat :: NamesProposal(s, ref, r) && MaySteer(s, actor, s.proposals[r])
      && target.Some? && LeadsTo(s.proposals[r].status, target.value)
      && (target.value == Proposed ==> !Cooling(s.fund, now))
  }

  ghost predicate SettleTerms(s: FundState, actor: string, ref: Ref) {
    exists r: nat :: NamesProposal(s, ref, r) && MaySteer(s, actor, s.proposals[r]) && s.proposals[r].status == Executed
  }

  lemma ShipIff(s: FundState, ref: Ref, caller: Option<string>, now: Time)
    ensures Service.ShipDraft(s, ref, caller, now).Done? <==> ShipTerms(s, ref, caller, now)
  {
    FindsProposal(s, ref);
    CallerIff(s, caller);
  }

  lemma StatusIff(s: FundState, actor: string, ref: Ref, target: Option<Status>, onchainId: Option<int>, now: Time)
    ensures Service.SetStatus(s, actor, ref, target, onchainId, now).Done? <==> StatusTerms(s, actor, ref, target, now)
  {
    FindsProposal(s, ref);
    ActsIff(s, actor);
    var r := ProposalIndex(s.proposals, ref);
    if r.Some? && target.Some? {
      LeadsIff(s.proposals[r.value].status, target.value);
    }
  }

  lemma SettleIff(s: FundState, actor: string, ref: Ref, pnl: int, now: Time)
    ensures Service.RecordSettle(s, actor, ref, pnl, now).Done? <==> SettleTerms(s, actor, ref)
  {
    FindsProposal(s, ref);
    ActsIff(s, actor);
    var r := ProposalIndex(s.proposals, ref);
    if r.Some? {
      LeadsIff(s.proposals[r.value].status, Settled);
    }
  }

  // ----- votes

  /** An approved member votes while the proposal is proposed or voting and its voting has not ended. */
  ghost predicate BallotTerms(s: FundState, ref: Ref, voter: string, ballot: Service.Ballot, now: Time) {
    && !ballot.Junk? && (exists i: nat :: NamesMember(s, voter, i) && s.members[i].approved)
    && exists r: nat :: NamesProposal(s, ref, r) && s.proposals[r].status in {Proposed, Voting}
                        && (s.proposals[r].votingEndsAt.Some? ==> now < s.proposals[r].votingEndsAt.value)
  }

  /** An active agent reviews another agent's proposal, before its voting is over, for or against. */
  ghost predicate ReviewTerms(s: FundState, ref: Ref, agent: string, ballot: Service.Ballot) {
    && ballot.Cast? && Active(s, agent)
    && exists r: nat :: NamesProposal(s, ref, r) && s.proposals[r].status in {Draft, Proposed, Voting}
                        && Lower(s.proposals[r].proposer) != Lower(agent)
  }

  lemma BallotIff(s: FundState, ref: Ref, voter: string, ballot: Service.Ballot, now: Time)
    ensures Service.RecordMemberVote(s, ref, voter, ballot, now).Done? <==> BallotTerms(s, ref, voter, ballot, now)
  {
    FindsProposal(s, ref);
    FindsMember(s, voter);
  }

  lemma ReviewIff(s: FundState, ref: Ref, agent: string, ballot: Service.Ballot)
    ensures Service.RecordAgentReview(s, ref, agent, ballot).Done? <==> ReviewTerms(s, ref, agent, ballot)
  {
    FindsProposal(s, ref);
    ActsIff(s, agent);
  }

  // ----- all actions

  ghost predicate Accepts(s: FundState, a: Action, now: Time) {
    match a
    case RequestMembership(telegramId, address) => MembershipTerms(s, telegramId, address)
    case ApproveMember(actor, who, address, caller) => ApprovalTerms(s, actor, who, address, caller)
    case RequestAgent(name, identityId, address) => ApplicationTerms(s, name, identityId, address)
    case ApproveAgent(actor, name, _, caller) => AgentApprovalTerms(s, actor, name, caller)
    case RemoveAgent(actor, name, caller) => RemovalTerms(s, actor, name, caller)
    case ClaimTopic(agent, topic) => ClaimTerms(s, agent, topic, now)
    case RequestDraft(agent, _, topic) => ClaimTerms(s, agent, Strip(topic), now)
    case DraftProposal(agent, b) => DraftTerms(s, agent, b, now)
    case ShipDraft(ref, caller) => ShipTerms(s, ref, caller, now)
    case SetStatus(actor, ref, target, _) => StatusTerms(s, actor, ref, target, now)
    case SetChainState(ref, _) => exists r: nat :: NamesProposal(s, ref, r)
    case RecordMemberVote(ref, voter, ballot) => BallotTerms(s, ref, voter, ballot, now)
    case RecordAgentReview(ref, agent, ballot) => ReviewTerms(s, ref, agent, ballot)
    case RecordSettle(actor, ref, _) => SettleTerms(s, actor, ref)
    case _ => true   // a release, a chain card or row, the operator's settings
  }

  lemma PeopleIff(s: FundState, a: Action, now: Time)
    requires a.RequestMembership? || a.ApproveMember? || a.RequestAgent? || a.ApproveAgent? || a.RemoveAgent?
    ensures Apply(s, a, now).Done? <==> Accepts(s, a, now)
  {
    match a {
      case RequestMembership(telegramId, address) => MembershipIff(s, telegramId, address);
      case ApproveMember(actor, who, address, caller) => ApproveMemberIff(s, actor, who, address, caller);
      case RequestAgent(name, identityId, address) => ApplicationIff(s, name, identityId, address);
      case ApproveAgent(actor, name, landed, caller) => AgentApprovalIff(s, actor, name, landed, caller);
      case RemoveAgent(actor, name, caller) => RemovalIff(s, actor, name, caller);
    }
  }

  lemma IdeasIff(s: FundState, a: Action, now: Time)
    requires a.ClaimTopic? || a.RequestDraft? || a.DraftProposal?
    ensures Apply(s, a, now).Done? <==> Accepts(s, a, now)
  {
    match a {
      case ClaimTopic(agent, topic) => ClaimTopicIff(s, agent, topic, now);
      case RequestDraft(agent, ideaBy, topic) => RequestDraftIff(s, agent, ideaBy, topic, now);
      case DraftProposal(agent, b) => DraftProposalIff(s, agent, b, now);
    }
  }

  lemma ProposalsIff(s: FundState, a: Action, now: Time)
    requires a.ShipDraft? || a.SetStatus? || a.SetChainState? || a.RecordMemberVote? || a.RecordAgentReview? || a.RecordSettle?
    ensures Apply(s, a, now).Done? <==> Accepts(s, a, now)
  {
    match a {
      case ShipDraft(ref, caller) => ShipIff(s, ref, caller, now);
      case SetStatus(actor, ref, target, onchainId) => StatusIff(s, actor, ref, target, onchainId, now);
      case SetChainState(ref, _) => FindsProposal(s, ref);
      case RecordMemberVote(ref, voter, ballot) => BallotIff(s, ref, voter, ballot, now);
      case RecordAgentReview(ref, agent, ballot) => ReviewIff(s, ref, agent, ballot);
      case RecordSettle(actor, ref, pnl) => SettleIff(s, actor, ref, pnl, now);
    }
  }

  /** An action goes through exactly when the records meet its terms. */
  lemma AcceptedIff(s: FundState, a: Action, now: Time)
    ensures Apply(s, a, now).Done? <==> Accepts(s, a, now)
  {
    if a.ClaimTopic? || a.RequestDraft? || a.DraftProposal? {
      IdeasIff(s, a, now);
    } else if a.RequestMembership? || a.ApproveMember? || a.RequestAgent? || a.ApproveAgent? || a.RemoveAgent? {
      PeopleIff(s, a, now);
    } else if a.ReleaseClaim? || a.ApplyFundCard? || a.ApplyChainStatus? || a.Configure? {
      FreeIff(s, a, now);
    } else {
      ProposalsIff(s, a, now);
    }
  }

  lemma FreeIff(s: FundState, a: Action, now: Time)
    requires a.ReleaseClaim? || a.ApplyFundCard? || a.ApplyChainStatus? || a.Configure?
    ensures Apply(s, a, now).Done?
  {
    match a {
      case ReleaseClaim(_, _) =>
      case ApplyFundCard(_) =>
      case ApplyChainStatus(_, _) =>
      case Configure(_) =>
    }
  }
}
