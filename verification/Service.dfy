/** The fund's actions as state transformers (sherwood_monitor/fund/service.py).
    Each function is one `backend.update`: the rules are checked against the state that is changed,
    and a refused rule changes nothing. */
module Service {
  import opened Lists
  import opened Text
  import opened Numerals
  import opened FundModel
  import opened Rules

  // ----- members

  /** The member on record under that id or address. */
  function Known(s: FundState, who: string, address: string): (r: Option<nat>)
    ensures r.Some? ==> r.value < |s.members|
  {
    if FindMember(s, who).Some? then FindMember(s, who) else if address != "" then FindMember(s, address) else None
  }

  function RequestMembership(s: FundState, telegramId: string, address: string): Outcome {
    var found := Known(s, telegramId, address);
    var members := if found.None? then s.members + [Member(telegramId, "", false, None)] else s.members;
    var i := if found.None? then |s.members| else found.value;
    if address != "" && members[i].address == "" then
      if !IsAddress(address) then Refused(MissingAddress)
      else Done(s.(members := members[i := members[i].(address := address)]))
    else Done(s.(members := members))
  }

  /** The members, with a new record when nobody is found and an address is known. */
  function WithCandidate(s: FundState, who: string, address: string): seq<Member> {
    if Known(s, who, address).Some? then s.members
    else if IsAddress(who) then s.members + [Member("", who, false, None)]
    else if address != "" then s.members + [Member(who, address, false, None)]
    else s.members
  }

  function CandidateIndex(s: FundState, who: string, address: string): (r: Option<nat>)
    ensures r.Some? ==> r.value < |WithCandidate(s, who, address)|
  {
    var known := Known(s, who, address);
    if known.None? && (IsAddress(who) || address != "") then Some(|s.members|) else known
  }

  function ApproveMember(s: FundState, actor: string, who: string, address: string, caller: Option<string>): Outcome {
    var gate := CheckCallerIsHost(s, caller);
    :- gate;
    var members := WithCandidate(s, who, address);
    var candidate := CandidateIndex(s, who, address);
    if candidate.None? then
      Refused(CheckApproveMember(s, actor, None).code)
    else
      var i := candidate.value;
      var m := if address != "" && members[i].address == "" then members[i].(address := address) else members[i];
      :- CheckApproveMember(s, actor, Some(m));
      Done(s.(members := members[i := m.(approved := true, memberNo := Some(s.nextMemberNo))],
              nextMemberNo := s.nextMemberNo + 1))
  }

  // ----- agents

  function RequestAgent(s: FundState, name: string, identityId: string, address: string): Outcome {
    if identityId == "" || !IsAddress(address) then Refused(MissingIdentity)
    else
      var other := FindAgentByAddress(s, address);
      if other.Some? && Lower(s.agents[other.value].name) != Lower(name) && !s.agents[other.value].removed then
        Refused(AddressTaken)
      else
        var existing := FindAgent(s, name);
        if existing.Some? && !s.agents[existing.value].removed then
          var i := existing.value;
          if s.agents[i].registered then Refused(AlreadyRegistered)
          else Done(s.(agents := s.agents[i := s.agents[i].(identityId := identityId, address := address)]))
        else
          var others := if existing.Some? then s.agents[..existing.value] + s.agents[existing.value + 1..] else s.agents;
          Done(s.(agents := others + [Agent(name, identityId, address, Guest, false, false, false)]))
  }

  function ApproveAgent(s: FundState, actor: string, name: string, landed: bool, caller: Option<string>): Outcome {
    var gate := CheckCallerIsHost(s, caller);
    :- gate;
    var target := FindTarget(s, name);
    :- CheckApproveAgent(s, actor, target);
    var i := target.value;
    if s.agents[i].registered then Refused(AlreadyRegistered)
    else Done(s.(agents := s.agents[i := s.agents[i].(approved := true, registered := landed)]))
  }

  /** Cancel every unproposed draft of one agent. */
  function CancelDrafts(ps: seq<Proposal>, key: string): (r: seq<Proposal>)
    ensures |r| == |ps|
  {
    seq(|ps|, i requires 0 <= i < |ps| =>
      if Lower(ps[i].proposer) == key && ps[i].status == Draft then ps[i].(status := Cancelled) else ps[i])
  }

  function RemoveAgent(s: FundState, actor: string, name: string, caller: Option<string>): Outcome {
    var gate := CheckCallerIsHost(s, caller);
    :- gate;
    var target := FindTarget(s, name);
    :- CheckRemoveAgent(s, actor, target);
    var i := target.value;
    var key := Lower(s.agents[i].name);
    Done(s.(agents := s.agents[i := s.agents[i].(removed := true)],
            claims := Select(s.claims, NotOf(key)),
            proposals := CancelDrafts(s.proposals, key)))
  }

  // ----- coordination

  /** Give the agent's first live claim a new expiry. */
  function RefreshClaim(claims: seq<Claim>, key: string, now: Time): seq<Claim> {
    if claims == [] then []
    else if claims[0].expiresAt > now && Lower(claims[0].agent) == key then
      [claims[0].(expiresAt := now + CLAIM_TTL)] + claims[1..]
    else [claims[0]] + RefreshClaim(claims[1..], key, now)
  }

  function ClaimTopic(s: FundState, agent: string, topic: string, now: Time): Outcome {
    var live := s.(claims := ActiveClaims(s.claims, now));
    :- CheckClaim(live, agent, topic, now);
    if ClaimOf(live.claims, Lower(agent), now).Some? then
      Done(live.(claims := RefreshClaim(live.claims, Lower(agent), now)))
    else
      var name := live.agents[FindAgent(live, agent).value].name;
      Done(live.(claims := live.claims + [Claim(name, Strip(topic), now + CLAIM_TTL, "")]))
  }

  function ReleaseClaim(s: FundState, agent: string, topic: string, now: Time): Outcome {
    Done(s.(claims := Select(ActiveClaims(s.claims, now), NotReleased(agent, topic))))
  }

  function RequestDraft(s: FundState, agent: string, ideaBy: string, topic: string, now: Time): Outcome {
    var text := Strip(topic);
    var live := s.(claims := ActiveClaims(s.claims, now));
    :- CheckClaim(live, agent, text, now);
    var name := live.agents[FindAgent(live, agent).value].name;
    Done(live.(claims := Select(live.claims, NotOf(Lower(name))) + [Claim(name, text, now + CLAIM_TTL, ideaBy)]))
  }

  function DraftRecord(s: FundState, agent: string, b: Brief, now: Time): Proposal
    requires FindAgent(s, agent).Some?
  {
    var claim := ClaimOf(s.claims, Lower(agent), now);
    Proposal(
      s.nextProposalSeq, s.agents[FindAgent(s, agent).value].name, Strip(b.topic), Strip(b.thesis),
      b.legs, b.maxCapital, b.maxDrawdownBps,
      if b.ideaBy != "" then b.ideaBy else if claim.Some? then claim.value.ideaBy else "",
      Draft, None, None, None, 0, None, [], [], [])
  }

  function DraftProposal(s: FundState, agent: string, b: Brief, now: Time): Outcome {
    if Strip(b.thesis) == "" then Refused(NoThesis)
    else
      var live := s.(claims := ActiveClaims(s.claims, now));
      :- CheckDraft(live, agent, b, now);
      var record := DraftRecord(live, agent, b, now);
      Done(live.(nextProposalSeq := s.nextProposalSeq + 1,
                 proposals := s.proposals + [record],
                 claims := Select(live.claims, NotOf(Lower(record.proposer)))))
  }

  function ShipDraft(s: FundState, ref: Ref, caller: Option<string>, now: Time): Outcome {
    var gate := CheckCallerIsHost(s, caller);
    :- gate;
    var r := ProposalIndex(s.proposals, ref);
    if r.None? then Refused(UnknownProposal)
    else
      var p := s.proposals[r.value];
      if p.status != Draft then Refused(NotDraft)
      else if p.legs == [] || p.maxCapital <= 0 then Refused(DraftNotReady)
      else
        :- CheckCooldown(s.fund, now);
        Done(s.(proposals := s.proposals[r.value := p.(shippedAt := Some(now))]))
  }

  // ----- lifecycle

  /** `_start_cooldown`. */
  function StartCooldown(f: Fund, now: Time): Fund {
    var until := now + (if f.cooldownPeriod > 0 then f.cooldownPeriod as real else 0.0);
    if f.cooldownUntil.None? || until > f.cooldownUntil.value then f.(cooldownUntil := Some(until)) else f
  }

  /** `_require_proposer_or_host`. */
  function CheckProposerOrHost(s: FundState, actor: string, p: Proposal): Verdict {
    if Lower(actor) == Lower(p.proposer) then CheckAgentCanAct(s, actor) else CheckHostAction(s, actor)
  }

  function MovedTo(p: Proposal, f: Fund, target: Status, onchainId: Option<int>, now: Time): Proposal {
    var q := p.(status := target, onchainId := if onchainId.Some? then onchainId else p.onchainId);
    if target == Proposed then q.(votingEndsAt := Some(now + f.votingPeriod as real))
    else if target == Review && p.reviewEndsAt.None? then q.(reviewEndsAt := Some(now + f.votingPeriod as real))
    else q
  }

  /** The state after a status move of proposal r. */
  function AfterMove(s: FundState, r: nat, target: Status, onchainId: Option<int>, now: Time): FundState
    requires r < |s.proposals|
  {
    s.(proposals := s.proposals[r := MovedTo(s.proposals[r], s.fund, target, onchainId, now)],
       fund := if target == Vetoed then StartCooldown(s.fund, now) else s.fund)
  }

  function SetStatus(s: FundState, actor: string, ref: Ref, target: Option<Status>, onchainId: Option<int>, now: Time): Outcome {
    var r := ProposalIndex(s.proposals, ref);
    if r.None? then Refused(UnknownProposal)
    else
      var p := s.proposals[r.value];
      :- CheckProposerOrHost(s, actor, p);
      :- CheckTransition(p.status, target);
      :- if p.status == Draft && target.value == Proposed then CheckCooldown(s.fund, now) else Allow;
      Done(AfterMove(s, r.value, target.value, onchainId, now))
  }

  /** What a chain read says about one proposal. */
  datatype Reading = Reading(againstBps: Option<int>, votingEndsAt: Option<Time>, reviewEndsAt: Option<Time>)

  function SetChainState(s: FundState, ref: Ref, x: Reading): Outcome {
    var r := ProposalIndex(s.proposals, ref);
    if r.None? then Refused(UnknownProposal)
    else
      var p := s.proposals[r.value];
      Done(s.(proposals := s.proposals[r.value := p.(
        againstBps := if x.againstBps.Some? then (if x.againstBps.value > 0 then x.againstBps.value else 0) else p.againstBps,
        votingEndsAt := if x.votingEndsAt.Some? then x.votingEndsAt else p.votingEndsAt,
        reviewEndsAt := if x.reviewEndsAt.Some? then x.reviewEndsAt else p.reviewEndsAt)]))
  }

  /** The fund-wide part of a chain card. `gate` is present when the card has `cooldownUntil`. */
  datatype FundCard = FundCard(
    cooldownPeriod: Option<nat>,
    vetoThresholdBps: Option<nat>,
    gate: Option<Option<Time>>,
    agentFeeBps: Option<int>)

  function ApplyFundCard(s: FundState, c: FundCard): Outcome {
    Done(s.(fund := s.fund.(
      cooldownPeriod := if c.cooldownPeriod.Some? then c.cooldownPeriod.value else s.fund.cooldownPeriod,
      vetoThresholdBps := if c.vetoThresholdBps.Some? then c.vetoThresholdBps.value else s.fund.vetoThresholdBps,
      cooldownUntil := if c.gate.Some? then c.gate.value else s.fund.cooldownUntil,
      agentFeeBps := if c.agentFeeBps.Some? then c.agentFeeBps else s.fund.agentFeeBps)))
  }

  /** CHAIN_STATES: the statuses a chain read may move a proposal to. */
  datatype ChainState = GuardianReview | ChainApproved | ChainExecuted | Rejected

  function ChainTarget(c: ChainState): Status {
    match c
    case GuardianReview => Review
    case ChainApproved => Approved
    case ChainExecuted => Executed
    case Rejected => Vetoed
  }

  /** One row of a chain card: the legality test and the move it guards.
      A row that names no known proposal, or an illegal move, changes nothing. */
  function ApplyChainStatus(s: FundState, id: nat, state: ChainState, now: Time): Outcome {
    var r := ProposalIndex(s.proposals, Local(id));
    var target := ChainTarget(state);
    if r.None? || target !in Transitions(s.proposals[r.value].status) then Done(s)
    else
      Done(s.(proposals := s.proposals[r.value := s.proposals[r.value].(status := target)],
              fund := if target == Vetoed then StartCooldown(s.fund, now) else s.fund))
  }

  // ----- votes and settlement

  function ReviewsNotBy(rs: seq<AgentReview>, key: string): seq<AgentReview> {
    if rs == [] then []
    else
      var last := rs[|rs| - 1];
      ReviewsNotBy(rs[..|rs| - 1], key) + (if Lower(last.agent) != key then [last] else [])
  }

  datatype Ballot = Cast(side: Side) | Clear | Junk

  function BallotId(m: Member): string {
    if m.telegramId != "" then m.telegramId else m.address
  }

  function Voted(p: Proposal, tid: string, ballot: Ballot): Proposal {
    p.(backers := Without(p.backers, tid) + (if ballot == Cast(Back) then [tid] else []),
       objectors := Without(p.objectors, tid) + (if ballot == Cast(Object) then [tid] else []))
  }

  function RecordMemberVote(s: FundState, ref: Ref, voter: string, ballot: Ballot, now: Time): Outcome {
    if ballot.Junk? then Refused(BadSide)
    else
      var r := ProposalIndex(s.proposals, ref);
      var m := FindMember(s, voter);
      :- CheckMemberVote(s, m, r, now);
      Done(s.(proposals := s.proposals[r.value := Voted(s.proposals[r.value], BallotId(s.members[m.value]), ballot)]))
  }

  function RecordAgentReview(s: FundState, ref: Ref, agent: string, ballot: Ballot): Outcome {
    if !ballot.Cast? then Refused(BadSide)
    else
      var r := ProposalIndex(s.proposals, ref);
      :- CheckReview(s, agent, r);
      var name := s.agents[FindAgent(s, agent).value].name;
      var p := s.proposals[r.value];
      Done(s.(proposals := s.proposals[r.value := p.(
        reviews := ReviewsNotBy(p.reviews, Lower(name)) + [AgentReview(name, ballot.side)])]))
  }

  function RecordSettle(s: FundState, actor: string, ref: Ref, pnl: int, now: Time): Outcome {
    var r := ProposalIndex(s.proposals, ref);
    if r.None? then Refused(UnknownProposal)
    else
      var p := s.proposals[r.value];
      :- CheckProposerOrHost(s, actor, p);
      :- CheckTransition(p.status, Some(Settled));
      Done(s.(proposals := s.proposals[r.value := p.(status := Settled)],
              fund := StartCooldown(s.fund, now),
              receipts := s.receipts + [Receipt(p.id, p.proposer, p.ideaBy, pnl, now)]))
  }

  // ----- host setup

  /** What the host's setup and the operator's rebind may write; the cooldown is not among it. */
  datatype Settings = Settings(
    hostTelegramId: string,
    votingPeriod: int,
    maxCapital: Option<int>,
    maxDrawdownBps: Option<int>,
    agentFeeBps: Option<int>)

  function Configure(s: FundState, x: Settings): Outcome {
    Done(s.(fund := s.fund.(
      hostTelegramId := x.hostTelegramId,
      votingPeriod := x.votingPeriod,
      maxCapital := x.maxCapital,
      maxDrawdownBps := x.maxDrawdownBps,
      agentFeeBps := x.agentFeeBps)))
  }

  /** `create_fund`: the host agent is registered at creation. */
  function CreateFund(f: Fund, name: string, identityId: string, address: string): FundState {
    FundState(f, [], [Agent(name, identityId, address, Host, true, true, false)], [], [], [], 1, 1)
  }
}
