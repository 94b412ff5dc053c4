/** The shared state of one fund and its lookups (sherwood_monitor/fund/models.py). */
module FundModel {
  import opened Text
  import opened Legs
  import opened Topics

  /** Clock readings, in seconds. */
  type Time = real

  const CLAIM_TTL: Time := 600.0
  const MAX_OPEN_PER_FUND := 2
  const MAX_OPEN_PER_AGENT := 1
  const MAX_AGENT_FEE_BPS := 1500

  datatype Status =
    Draft | Proposed | Voting | Passed | Review | Approved | Vetoed | Executed | Settled | Cancelled

  /** OPEN_STATUSES: a draft already holds a slot. */
  predicate IsOpen(st: Status) {
    !IsTerminal(st)
  }

  predicate IsTerminal(st: Status) {
    st in {Vetoed, Settled, Cancelled}
  }

  datatype Fund = Fund(
    asset: string,
    hostTelegramId: string,
    votingPeriod: int,
    vetoThresholdBps: int,
    maxCapital: Option<int>,
    maxDrawdownBps: Option<int>,
    agentFeeBps: Option<int>,
    cooldownPeriod: int,
    cooldownUntil: Option<Time>)

  datatype Member = Member(telegramId: string, address: string, approved: bool, memberNo: Option<nat>)

  datatype Role = Host | Guest

  datatype Agent = Agent(
    name: string,
    identityId: string,
    address: string,
    role: Role,
    approved: bool,
    registered: bool,
    removed: bool)

  datatype Claim = Claim(agent: string, topic: string, expiresAt: Time, ideaBy: string)

  datatype Side = Back | Object

  datatype AgentReview = AgentReview(agent: string, verdict: Side)

  datatype Proposal = Proposal(
    id: nat,
    proposer: string,
    topic: string,
    thesis: string,
    legs: seq<Leg>,
    maxCapital: int,
    maxDrawdownBps: int,
    ideaBy: string,
    status: Status,
    onchainId: Option<int>,
    votingEndsAt: Option<Time>,
    reviewEndsAt: Option<Time>,
    againstBps: int,
    shippedAt: Option<Time>,
    backers: seq<string>,
    objectors: seq<string>,
    reviews: seq<AgentReview>)

  datatype Receipt = Receipt(proposalId: nat, agent: string, ideaBy: string, pnl: int, settledAt: Time)

  datatype FundState = FundState(
    fund: Fund,
    members: seq<Member>,
    agents: seq<Agent>,
    claims: seq<Claim>,
    proposals: seq<Proposal>,
    receipts: seq<Receipt>,
    nextProposalSeq: nat,
    nextMemberNo: nat)

  /** How a caller names a proposal: the local id "p-3", or the on-chain id "12" / "#12". */
  datatype Ref = Local(id: nat) | OnChain(chainId: nat) | Unknown

  // ----- lookups: the first match in list order

  function AgentIndex(agents: seq<Agent>, key: string): (r: Option<nat>)
    ensures r.Some? ==> r.value < |agents| && Lower(agents[r.value].name) == key
    ensures r.Some? ==> forall i :: 0 <= i < r.value ==> Lower(agents[i].name) != key
    ensures r.None? ==> forall i :: 0 <= i < |agents| ==> Lower(agents[i].name) != key
  {
    if agents == [] then None
    else if Lower(agents[0].name) == key then Some(0)
    else
      var r := AgentIndex(agents[1..], key);
      assert forall i :: 1 <= i < |agents| ==> agents[i] == agents[1..][i - 1];
      if r.Some? then Some(r.value + 1) else None
  }

  /** `FundState.agent`. */
  function FindAgent(s: FundState, name: string): (r: Option<nat>)
    ensures r.Some? ==> r.value < |s.agents|
  {
    AgentIndex(s.agents, Lower(Strip(name)))
  }

  function AddressIndex(agents: seq<Agent>, key: string): (r: Option<nat>)
    ensures r.Some? ==> r.value < |agents| && Lower(agents[r.value].address) == key
    ensures r.Some? ==> forall i :: 0 <= i < r.value ==> Lower(agents[i].address) != key
    ensures r.None? ==> forall i :: 0 <= i < |agents| ==> Lower(agents[i].address) != key
  {
    if agents == [] then None
    else if Lower(agents[0].address) == key then Some(0)
    else
      var r := AddressIndex(agents[1..], key);
      assert forall i :: 1 <= i < |agents| ==> agents[i] == agents[1..][i - 1];
      if r.Some? then Some(r.value + 1) else None
  }

  /** `FundState.agent_by_address`. */
  function FindAgentByAddress(s: FundState, address: string): (r: Option<nat>)
    ensures r.Some? ==> r.value < |s.agents|
  {
    var key := Lower(Strip(address));
    if key == "" then None else AddressIndex(s.agents, key)
  }

  /** `state.agent(name) or state.agent_by_address(name)`. */
  function FindTarget(s: FundState, name: string): (r: Option<nat>)
    ensures r.Some? ==> r.value < |s.agents|
  {
    if FindAgent(s, name).Some? then FindAgent(s, name) else FindAgentByAddress(s, name)
  }

  /** The member goes by that id, or by that address if it has one. */
  predicate GoesBy(m: Member, key: string) {
    Lower(m.telegramId) == key || (m.address != "" && Lower(m.address) == key)
  }

  function MemberIndex(members: seq<Member>, key: string): (r: Option<nat>)
    ensures r.Some? ==> r.value < |members| && GoesBy(members[r.value], key)
    ensures r.Some? ==> forall i :: 0 <= i < r.value ==> !GoesBy(members[i], key)
    ensures r.None? ==> forall i :: 0 <= i < |members| ==> !GoesBy(members[i], key)
  {
    if members == [] then None
    else if Lower(members[0].telegramId) == key || (members[0].address != "" && Lower(members[0].address) == key) then Some(0)
    else
      var r := MemberIndex(members[1..], key);
      assert forall i :: 1 <= i < |members| ==> members[i] == members[1..][i - 1];
      if r.Some? then Some(r.value + 1) else None
  }

  /** `FundState.member`. */
  function FindMember(s: FundState, who: string): (r: Option<nat>)
    ensures r.Some? ==> r.value < |s.members|
  {
    var key := Lower(Strip(who));
    if key == "" then None else MemberIndex(s.members, key)
  }

  predicate Named(p: Proposal, ref: Ref) {
    match ref
    case Local(id) => p.id == id
    case OnChain(n) => p.onchainId == Some(n)
    case Unknown => false
  }

  function ProposalIndex(ps: seq<Proposal>, ref: Ref): (r: Option<nat>)
    ensures r.Some? ==> r.value < |ps| && Named(ps[r.value], ref)
    ensures r.Some? ==> forall i :: 0 <= i < r.value ==> !Named(ps[i], ref)
    ensures r.None? ==> forall i :: 0 <= i < |ps| ==> !Named(ps[i], ref)
  {
    if ps == [] then None
    else if Named(ps[0], ref) then Some(0)
    else
      var r := ProposalIndex(ps[1..], ref);
      assert forall i :: 1 <= i < |ps| ==> ps[i] == ps[1..][i - 1];
      if r.Some? then Some(r.value + 1) else None
  }

  /** `len(state.open_proposals())`. */
  function OpenCount(ps: seq<Proposal>): nat {
    if ps == [] then 0
    else OpenCount(ps[..|ps| - 1]) + (if IsOpen(ps[|ps| - 1].status) then 1 else 0)
  }

  predicate OpenFor(p: Proposal, key: string) {
    IsOpen(p.status) && Lower(p.proposer) == key
  }

  /** `len(open_proposals_of(state, agent))`. */
  function OpenCountOf(ps: seq<Proposal>, key: string): nat {
    if ps == [] then 0
    else OpenCountOf(ps[..|ps| - 1], key) + (if OpenFor(ps[|ps| - 1], key) then 1 else 0)
  }

  // ----- claims

  /** The tests that the comprehensions over `state.claims` apply. */
  datatype ClaimTest =
    | Live(now: Time)                                // c.expires_at > now
    | NotOf(key: string)                             // c.agent.lower() != key
    | NotReleased(releaser: string, topic: string)   // not the claim a release names ("" names any topic)

  predicate Passes(c: Claim, t: ClaimTest) {
    match t
    case Live(now) => c.expiresAt > now
    case NotOf(key) => Lower(c.agent) != key
    case NotReleased(agent, topic) =>
      !(Lower(c.agent) == Lower(agent) && (topic == "" || Normalize(c.topic) == Normalize(topic)))
  }

  /** `[c for c in claims if test(c)]`. */
  function Select(claims: seq<Claim>, t: ClaimTest): seq<Claim> {
    if claims == [] then []
    else
      var last := claims[|claims| - 1];
      Select(claims[..|claims| - 1], t) + (if Passes(last, t) then [last] else [])
  }

  /** `active_claims`: a claim is dead at exactly `expiresAt`. */
  function ActiveClaims(claims: seq<Claim>, now: Time): seq<Claim> {
    Select(claims, Live(now))
  }
}
