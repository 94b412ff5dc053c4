/** The coordination rules (sherwood_monitor/fund/rules.py): pure checks over the fund state. */
module Rules {
  import opened Text
  import opened Numerals
  import opened Legs
  import opened Topics
  import opened FundModel

  datatype Code =
    | UnknownAgent | AgentRemoved | AgentNotRegistered | NotHost | HostUnset
    | Cooldown | AssetNotUsdPegged | AgentFeeUnknown | BadAgentFee | AgentFeeTooHigh
    | BadTopic | AgentHasOpenProposal | TopicClaimed | AgentHasClaim | FundFull
    | NoClaim | ClaimMismatch | NoThesis
    | BadCapital | ExceedsMaxCapital | BadDrawdown | ExceedsMaxDrawdown
    | LegsRefused(fault: LegFault)
    | UnknownProposal | NotDraft | DraftNotReady | BadTransition
    | OwnProposal | NotReviewable | NotMember | VotingClosed | BadSide
    | UnknownMember | AlreadyApproved | MissingAddress | MissingIdentity
    | AddressTaken | AlreadyRegistered | CannotRemoveHost

  /** What an action does: a new state, or a rule violation that leaves the state alone. */
  datatype Outcome = Done(state: FundState) | Refused(code: Code)

  datatype Verdict = Allow | Deny(code: Code)
  {
    predicate IsFailure() {
      Deny?
    }

    /** `require(verdict)` inside an action. */
    function PropagateFailure(): Outcome
      requires Deny?
    {
      Refused(code)
    }
  }

  function Both(v: Verdict, w: Verdict): Verdict {
    if v.Deny? then v else w
  }

  // ----- who may act

  function CheckAgentCanAct(s: FundState, name: string): Verdict {
    var r := FindAgent(s, name);
    if r.None? then Deny(UnknownAgent)
    else if s.agents[r.value].removed then Deny(AgentRemoved)
    else if !s.agents[r.value].registered then Deny(AgentNotRegistered)
    else Allow
  }

  function CheckHostAction(s: FundState, actor: string): Verdict {
    var r := FindAgent(s, actor);
    if r.None? || s.agents[r.value].removed || s.agents[r.value].role != Host then Deny(NotHost) else Allow
  }

  function CheckCallerIsHost(s: FundState, caller: Option<string>): Verdict {
    if caller.None? then Allow
    else if s.fund.hostTelegramId == "" then Deny(HostUnset)
    else if caller.value != s.fund.hostTelegramId then Deny(NotHost)
    else Allow
  }

  // ----- fund gates

  function CheckCooldown(f: Fund, now: Time): Verdict {
    if f.cooldownUntil.Some? && now < f.cooldownUntil.value then Deny(Cooldown) else Allow
  }

  function Upper(s: string): (r: string)
  {
    seq(|s|, i requires 0 <= i < |s| => if 'a' <= s[i] <= 'z' then (s[i] as int - 32) as char else s[i])
  }

  function CheckProposableAsset(f: Fund): Verdict {
    if Upper(f.asset) != "USDG" then Deny(AssetNotUsdPegged) else Allow
  }

  function CheckFeeRecorded(f: Fund): Verdict {
    if f.agentFeeBps.None? then Deny(AgentFeeUnknown)
    else if f.agentFeeBps.value < 0 then Deny(BadAgentFee)
    else if f.agentFeeBps.value > MAX_AGENT_FEE_BPS then Deny(AgentFeeTooHigh)
    else Allow
  }

  /** The gates every claim and draft passes that depend on the fund alone. */
  function FundGates(f: Fund, now: Time): Verdict {
    Both(CheckProposableAsset(f), Both(CheckFeeRecorded(f), CheckCooldown(f, now)))
  }

  // ----- claims

  /** `claim_of`: the agent's first live claim. */
  function ClaimOf(claims: seq<Claim>, key: string, now: Time): (r: Option<Claim>)
    ensures r.Some? ==> r.value in claims && Lower(r.value.agent) == key && r.value.expiresAt > now
    ensures r.None? ==> forall i :: 0 <= i < |claims| && claims[i].expiresAt > now ==> Lower(claims[i].agent) != key
  {
    if claims == [] then None
    else if claims[0].expiresAt > now && Lower(claims[0].agent) == key then Some(claims[0])
    else
      assert forall i :: 1 <= i < |claims| ==> claims[i] == claims[1..][i - 1];
      ClaimOf(claims[1..], key, now)
  }

  /** `claim_for_topic`: the first live claim whose topic normalizes to the (re-normalized) argument. */
  function ClaimForTopic(claims: seq<Claim>, topic: string, now: Time): (r: Option<Claim>)
    ensures r.Some? ==> r.value in claims && Normalize(r.value.topic) == Normalize(topic) && r.value.expiresAt > now
    ensures r.None? ==>
              forall i :: 0 <= i < |claims| && claims[i].expiresAt > now ==> Normalize(claims[i].topic) != Normalize(topic)
  {
    if claims == [] then None
    else if claims[0].expiresAt > now && Normalize(claims[0].topic) == Normalize(topic) then Some(claims[0])
    else
      assert forall i :: 1 <= i < |claims| ==> claims[i] == claims[1..][i - 1];
      ClaimForTopic(claims[1..], topic, now)
  }

  function CheckClaim(s: FundState, agent: string, topic: string, now: Time): Verdict {
    var gates := Both(CheckAgentCanAct(s, agent), FundGates(s.fund, now));
    var key := Normalize(topic);
    var holder := ClaimForTopic(s.claims, key, now);
    var mine := ClaimOf(s.claims, Lower(agent), now);
    if gates.Deny? then gates
    else if key == "" then Deny(BadTopic)
    else if OpenCountOf(s.proposals, Lower(agent)) >= MAX_OPEN_PER_AGENT then Deny(AgentHasOpenProposal)
    else if holder.Some? && Lower(holder.value.agent) != Lower(agent) then Deny(TopicClaimed)
    else if mine.Some? && Normalize(mine.value.topic) != key then Deny(AgentHasClaim)
    else if mine.None?
      && OpenCount(s.proposals) + |Select(ActiveClaims(s.claims, now), NotOf(Lower(agent)))| >= MAX_OPEN_PER_FUND
    then Deny(FundFull)
    else Allow
  }

  // ----- drafts

  function CheckEnvelope(f: Fund, maxCapital: int, maxDrawdownBps: int): Verdict {
    if maxCapital <= 0 then Deny(BadCapital)
    else if f.maxCapital.Some? && maxCapital > f.maxCapital.value then Deny(ExceedsMaxCapital)
    else if !(0 <= maxDrawdownBps <= 10_000) then Deny(BadDrawdown)
    else if f.maxDrawdownBps.Some? && maxDrawdownBps > f.maxDrawdownBps.value then Deny(ExceedsMaxDrawdown)
    else Allow
  }

  function CheckLegsVerdict(legs: seq<Leg>, maxCapital: int): Verdict {
    var f := LegsFault(legs, maxCapital);
    if f.Some? then Deny(LegsRefused(f.value)) else Allow
  }

  /** What an agent asks to have recorded. */
  datatype Brief = Brief(
    topic: string,
    thesis: string,
    legs: seq<Leg>,
    maxCapital: int,
    maxDrawdownBps: int,
    ideaBy: string)

  function CheckDraft(s: FundState, agent: string, b: Brief, now: Time): Verdict {
    var gates := Both(CheckAgentCanAct(s, agent), FundGates(s.fund, now));
    var claim := ClaimOf(s.claims, Lower(agent), now);
    if gates.Deny? then gates
    else if OpenCountOf(s.proposals, Lower(agent)) >= MAX_OPEN_PER_AGENT then Deny(AgentHasOpenProposal)
    else if OpenCount(s.proposals) >= MAX_OPEN_PER_FUND then Deny(FundFull)
    else if claim.None? then Deny(NoClaim)
    else if Normalize(claim.value.topic) != Normalize(b.topic) then Deny(ClaimMismatch)
    else Both(CheckEnvelope(s.fund, b.maxCapital, b.maxDrawdownBps), CheckLegsVerdict(b.legs, b.maxCapital))
  }

  // ----- votes and reviews

  function CheckReview(s: FundState, agent: string, r: Option<nat>): Verdict
    requires r.Some? ==> r.value < |s.proposals|
  {
    var v := CheckAgentCanAct(s, agent);
    if v.Deny? then v
    else if r.None? then Deny(UnknownProposal)
    else if Lower(s.proposals[r.value].proposer) == Lower(agent) then Deny(OwnProposal)
    else if s.proposals[r.value].status !in {Draft, Proposed, Voting} then Deny(NotReviewable)
    else Allow
  }

  function CheckMemberVote(s: FundState, m: Option<nat>, r: Option<nat>, now: Time): Verdict
    requires m.Some? ==> m.value < |s.members|
    requires r.Some? ==> r.value < |s.proposals|
  {
    if m.None? || !s.members[m.value].approved then Deny(NotMember)
    else if r.None? then Deny(UnknownProposal)
    else
      var p := s.proposals[r.value];
      if p.status !in {Proposed, Voting} then Deny(VotingClosed)
      else if p.votingEndsAt.Some? && now >= p.votingEndsAt.value then Deny(VotingClosed)
      else Allow
  }

  // ----- lifecycle

  /** TRANSITIONS. */
  function Transitions(st: Status): set<Status> {
    match st
    case Draft => {Proposed, Cancelled}
    case Proposed => {Voting, Passed, Review, Vetoed, Cancelled}
    case Voting => {Passed, Review, Vetoed, Cancelled}
    case Passed => {Review, Approved, Executed, Cancelled}
    case Review => {Approved, Vetoed, Cancelled}
    case Approved => {Executed, Cancelled}
    case Executed => {Settled}
    case Vetoed => {}
    case Settled => {}
    case Cancelled => {}
  }

  function CheckTransition(old_: Status, target: Option<Status>): Verdict {
    if target.None? || target.value !in Transitions(old_) then Deny(BadTransition) else Allow
  }

  // ----- host actions

  function CheckApproveAgent(s: FundState, actor: string, target: Option<nat>): Verdict
    requires target.Some? ==> target.value < |s.agents|
  {
    var v := CheckHostAction(s, actor);
    if v.Deny? then v
    else if target.None? then Deny(UnknownAgent)
    else if s.agents[target.value].removed then Deny(AgentRemoved)
    else if s.agents[target.value].identityId == "" || !IsAddress(s.agents[target.value].address) then Deny(MissingIdentity)
    else Allow
  }

  function CheckRemoveAgent(s: FundState, actor: string, target: Option<nat>): Verdict
    requires target.Some? ==> target.value < |s.agents|
  {
    var v := CheckHostAction(s, actor);
    if v.Deny? then v
    else if target.None? then Deny(UnknownAgent)
    else if s.agents[target.value].removed then Deny(AgentRemoved)
    else if s.agents[target.value].role == Host then Deny(CannotRemoveHost)
    else Allow
  }

  function CheckApproveMember(s: FundState, actor: string, m: Option<Member>): Verdict {
    var v := CheckHostAction(s, actor);
    if v.Deny? then v
    else if m.None? then Deny(UnknownMember)
    else if m.value.approved then Deny(AlreadyApproved)
    else if !IsAddress(m.value.address) then Deny(MissingAddress)
    else Allow
  }
}
