/** What every action keeps about agents, claims and open proposals, and so what holds in every reachable state. */
module Coordination {
  import opened Text
  import opened Topics
  import opened FundModel
  import opened Rules
  import opened Protocol
  import opened Evolution
  import Service

  // ----- the invariant

  ghost predicate NamesOk(agents: seq<Agent>) {
    && (forall i :: 0 <= i < |agents| ==> Trimmed(agents[i].name))
    && (forall i, j :: 0 <= i < j < |agents| ==> Lower(agents[i].name) != Lower(agents[j].name))
  }

  predicate ActiveAs(a: Agent, key: string) {
    Lower(a.name) == key && a.registered && !a.removed
  }

  ghost predicate HasActive(agents: seq<Agent>, key: string) {
    exists k :: 0 <= k < |agents| && ActiveAs(agents[k], key)
  }

  /** Every stored claim belongs to a registered agent that has not been removed. */
  ghost predicate ClaimsOwned(claims: seq<Claim>, agents: seq<Agent>) {
    forall i :: 0 <= i < |claims| ==> HasActive(agents, Lower(claims[i].agent))
  }

  ghost predicate DistinctAgents(claims: seq<Claim>) {
    forall i, j :: 0 <= i < j < |claims| ==> Lower(claims[i].agent) != Lower(claims[j].agent)
  }

  ghost predicate OneOpenEach(ps: seq<Proposal>) {
    forall i, j :: 0 <= i < j < |ps| && IsOpen(ps[i].status) && IsOpen(ps[j].status)
      ==> Lower(ps[i].proposer) != Lower(ps[j].proposer)
  }

  ghost predicate ClaimOrOpen(claims: seq<Claim>, ps: seq<Proposal>) {
    forall i, j :: 0 <= i < |claims| && 0 <= j < |ps| ==> !OpenFor(ps[j], Lower(claims[i].agent))
  }

  ghost predicate Seats(claims: seq<Claim>, ps: seq<Proposal>) {
    && DistinctAgents(claims)
    && OneOpenEach(ps)
    && ClaimOrOpen(claims, ps)
    && OpenCount(ps) + |claims| <= MAX_OPEN_PER_FUND
  }

  /** Two claims share a normal form only if that form is not a fixed point of normalization. */
  ghost predicate DistinctTopics(claims: seq<Claim>) {
    forall i, j :: 0 <= i < j < |claims| && Normalize(claims[i].topic) == Normalize(claims[j].topic)
      ==> Normalize(Normalize(claims[i].topic)) != Normalize(claims[i].topic)
  }

  ghost predicate Inv(s: FundState) {
    && NamesOk(s.agents)
    && ClaimsOwned(s.claims, s.agents)
    && Seats(s.claims, s.proposals)
    && DistinctTopics(s.claims)
  }

  // ----- selecting claims

  lemma {:induction false} SelectMembers(claims: seq<Claim>, t: ClaimTest)
    ensures |Select(claims, t)| <= |claims|
    ensures forall c :: c in Select(claims, t) <==> c in claims && Passes(c, t)
  {
    if claims != [] {
      var front, last := claims[..|claims| - 1], claims[|claims| - 1];
      SelectMembers(front, t);
      assert claims == front + [last];
    }
  }

  /** A selection is a subsequence: f gives each selected claim its old place, in order. */
  lemma {:induction false} SelectEmbeds(claims: seq<Claim>, t: ClaimTest) returns (f: seq<nat>)
    ensures |f| == |Select(claims, t)|
    ensures forall i :: 0 <= i < |f| ==> f[i] < |claims| && Select(claims, t)[i] == claims[f[i]]
    ensures forall i, j :: 0 <= i < j < |f| ==> f[i] < f[j]
  {
    if claims == [] {
      f := [];
    } else {
      var n := |claims| - 1;
      var g := SelectEmbeds(claims[..n], t);
      f := if Passes(claims[n], t) then g + [n] else g;
    }
  }

  lemma {:induction false} SelectAll(claims: seq<Claim>, t: ClaimTest)
    requires forall i :: 0 <= i < |claims| ==> Passes(claims[i], t)
    ensures Select(claims, t) == claims
  {
    if claims != [] {
      SelectAll(claims[..|claims| - 1], t);
    }
  }

  lemma {:induction false} SelectShrinks(claims: seq<Claim>, t: ClaimTest, c: Claim)
    requires c in claims && !Passes(c, t)
    ensures |Select(claims, t)| < |claims|
  {
    var front, last := claims[..|claims| - 1], claims[|claims| - 1];
    SelectMembers(front, t);
    if c != last {
      assert claims == front + [last];
      SelectShrinks(front, t, c);
    }
  }

  lemma SelectKeepsTopics(claims: seq<Claim>, t: ClaimTest)
    requires DistinctTopics(claims)
    ensures DistinctTopics(Select(claims, t))
  {
    var f := SelectEmbeds(claims, t);
  }

  lemma SelectKeepsSeats(claims: seq<Claim>, t: ClaimTest, ps: seq<Proposal>)
    requires Seats(claims, ps)
    ensures Seats(Select(claims, t), ps)
  {
    var f := SelectEmbeds(claims, t);
    SelectMembers(claims, t);
  }

  lemma SelectKeepsOwned(claims: seq<Claim>, t: ClaimTest, agents: seq<Agent>)
    requires ClaimsOwned(claims, agents)
    ensures ClaimsOwned(Select(claims, t), agents)
  {
    var f := SelectEmbeds(claims, t);
  }

  /** A selection of claims keeps everything the invariant says about them. */
  lemma SelectKeepsInv(s: FundState, t: ClaimTest)
    requires Inv(s)
    ensures Inv(s.(claims := Select(s.claims, t)))
  {
    SelectKeepsTopics(s.claims, t);
    SelectKeepsSeats(s.claims, t, s.proposals);
    SelectKeepsOwned(s.claims, t, s.agents);
  }

  // ----- counting open proposals

  lemma {:induction false} OpenCountOfZero(ps: seq<Proposal>, key: string)
    ensures OpenCountOf(ps, key) == 0 <==> forall i :: 0 <= i < |ps| ==> !OpenFor(ps[i], key)
  {
    if ps != [] {
      OpenCountOfZero(ps[..|ps| - 1], key);
    }
  }

  /** No transition opens a closed proposal, so evolving opens no slot. */
  lemma {:induction false} OpenCountEvolves(ps: seq<Proposal>, qs: seq<Proposal>)
    requires |ps| == |qs| && AllEvolve(ps, qs)
    ensures OpenCount(qs) <= OpenCount(ps)
  {
    if ps != [] {
      var n := |ps| - 1;
      assert Evolves(ps[n], qs[n]);
      OpenCountEvolves(ps[..n], qs[..n]);
    }
  }

  lemma EvolveKeepsSeats(claims: seq<Claim>, ps: seq<Proposal>, qs: seq<Proposal>)
    requires Seats(claims, ps) && |ps| == |qs| && AllEvolve(ps, qs)
    ensures Seats(claims, qs)
  {
    OpenCountEvolves(ps, qs);
    assert forall i :: 0 <= i < |ps| ==> qs[i].proposer == ps[i].proposer && (IsOpen(qs[i].status) ==> IsOpen(ps[i].status));
  }

  // ----- agents

  lemma FindTrimmed(s: FundState, name: string)
    requires Trimmed(name)
    ensures FindAgent(s, name).Some? ==> Lower(s.agents[FindAgent(s, name).value].name) == Lower(name)
    ensures FindAgent(s, name).None? ==> forall i :: 0 <= i < |s.agents| ==> Lower(s.agents[i].name) != Lower(name)
  {
    StripTrimmed(name);
  }

  /** An agent passes `check_agent_can_act` exactly when the fund has it registered and not removed. */
  lemma ActiveCanAct(s: FundState, name: string)
    requires NamesOk(s.agents) && Trimmed(name)
    ensures HasActive(s.agents, Lower(name)) <==> CheckAgentCanAct(s, name) == Allow
  {
    FindTrimmed(s, name);
    if HasActive(s.agents, Lower(name)) {
      var k :| 0 <= k < |s.agents| && ActiveAs(s.agents[k], Lower(name));
      assert FindAgent(s, name) == Some(k);
    }
  }

  /** Agents that stay active keep their claims owned. */
  lemma OwnersStay(claims: seq<Claim>, agents: seq<Agent>, agents': seq<Agent>, g: seq<nat>)
    requires ClaimsOwned(claims, agents) && |g| == |agents|
    requires forall k, i :: 0 <= k < |agents| && 0 <= i < |claims| && ActiveAs(agents[k], Lower(claims[i].agent))
               ==> g[k] < |agents'| && ActiveAs(agents'[g[k]], Lower(claims[i].agent))
    ensures ClaimsOwned(claims, agents')
  {
    forall i | 0 <= i < |claims|
      ensures HasActive(agents', Lower(claims[i].agent))
    {
      var k :| 0 <= k < |agents| && ActiveAs(agents[k], Lower(claims[i].agent));
      assert ActiveAs(agents'[g[k]], Lower(claims[i].agent));
    }
  }

  lemma AgentUpdateKeepsInv(s: FundState, i: nat, a: Agent)
    requires Inv(s) && i < |s.agents|
    requires a.name == s.agents[i].name
    requires s.agents[i].registered && !s.agents[i].removed ==> a.registered && !a.removed
    ensures Inv(s.(agents := s.agents[i := a]))
  {
    OwnersStay(s.claims, s.agents, s.agents[i := a], seq(|s.agents|, k => k));
  }

  lemma AgentReplaceKeepsNames(agents: seq<Agent>, existing: Option<nat>, a: Agent)
    requires NamesOk(agents) && Trimmed(a.name) && (existing.Some? ==> existing.value < |agents|)
    requires forall i :: 0 <= i < |agents| && existing != Some(i) ==> Lower(agents[i].name) != Lower(a.name)
    ensures var others := if existing.Some? then agents[..existing.value] + agents[existing.value + 1..] else agents;
            NamesOk(others + [a])
  {}

  lemma AgentReplaceKeepsInv(s: FundState, existing: Option<nat>, a: Agent)
    requires Inv(s) && Trimmed(a.name)
    requires existing == FindAgent(s, a.name)
    requires existing.Some? ==> s.agents[existing.value].removed
    ensures var others := if existing.Some? then s.agents[..existing.value] + s.agents[existing.value + 1..] else s.agents;
            Inv(s.(agents := others + [a]))
  {
    FindTrimmed(s, a.name);
    AgentReplaceKeepsNames(s.agents, existing, a);
    var others := if existing.Some? then s.agents[..existing.value] + s.agents[existing.value + 1..] else s.agents;
    var e: int := if existing.Some? then existing.value else |s.agents|;
    OwnersStay(s.claims, s.agents, others + [a], seq(|s.agents|, (k: nat) => if k > e then k - 1 else k));
  }

  lemma RemoveAgentKeepsInv(s: FundState, i: nat)
    requires Inv(s) && i < |s.agents|
    ensures var key := Lower(s.agents[i].name);
            Inv(s.(agents := s.agents[i := s.agents[i].(removed := true)],
                   claims := Select(s.claims, NotOf(key)),
                   proposals := Service.CancelDrafts(s.proposals, key)))
  {
    var key := Lower(s.agents[i].name);
    var agents := s.agents[i := s.agents[i].(removed := true)];
    var claims := Select(s.claims, NotOf(key));
    SelectKeepsInv(s, NotOf(key));
    EvolveKeepsSeats(claims, s.proposals, Service.CancelDrafts(s.proposals, key));
    NoneOf(s.claims, key);
    OwnersStay(claims, s.agents, agents, seq(|s.agents|, k => k));
  }

  /** After dropping an agent's claims none of its claims is left. */
  lemma NoneOf(claims: seq<Claim>, key: string)
    ensures forall i :: 0 <= i < |Select(claims, NotOf(key))| ==>
              Select(claims, NotOf(key))[i] in claims && Lower(Select(claims, NotOf(key))[i].agent) != key
  {
    var r := Select(claims, NotOf(key));
    SelectMembers(claims, NotOf(key));
    assert forall i :: 0 <= i < |r| ==> r[i] in r;
  }

  // ----- claims

  lemma {:induction false} RefreshOnlyExpiry(claims: seq<Claim>, key: string, now: Time)
    ensures var r := Service.RefreshClaim(claims, key, now);
            && |r| == |claims|
            && forall i :: 0 <= i < |claims| ==>
                 r[i] == claims[i]
                 || (r[i] == claims[i].(expiresAt := now + CLAIM_TTL) && Lower(claims[i].agent) == key)
  {
    if claims != [] {
      RefreshOnlyExpiry(claims[1..], key, now);
      assert forall i :: 1 <= i < |claims| ==> claims[i] == claims[1..][i - 1];
    }
  }

  lemma RefreshKeepsInv(s: FundState, key: string, now: Time)
    requires Inv(s)
    ensures Inv(s.(claims := Service.RefreshClaim(s.claims, key, now)))
  {
    RefreshOnlyExpiry(s.claims, key, now);
    var r := Service.RefreshClaim(s.claims, key, now);
    assert forall i :: 0 <= i < |r| ==> r[i].agent == s.claims[i].agent && r[i].topic == s.claims[i].topic;
    assert DistinctTopics(r);
  }

  /** The topic of a claim that passed `check_claim` clashes with no other agent's live claim. */
  ghost predicate TopicFree(claims: seq<Claim>, agent: string, topic: string) {
    forall i :: 0 <= i < |claims| && Lower(claims[i].agent) != Lower(agent) && Normalize(claims[i].topic) == Normalize(topic)
      ==> Normalize(Normalize(topic)) != Normalize(topic)
  }

  lemma CheckedTopicIsFree(claims: seq<Claim>, agent: string, topic: string, now: Time)
    requires DistinctTopics(claims) && forall i :: 0 <= i < |claims| ==> claims[i].expiresAt > now
    requires var holder := ClaimForTopic(claims, Normalize(topic), now);
             holder.Some? ==> Lower(holder.value.agent) == Lower(agent)
    ensures TopicFree(claims, agent, topic)
  {
    TwoPassesReachFixedPoint(topic);
    var holder := ClaimForTopic(claims, Normalize(topic), now);
    if holder.Some? {
      var h :| 0 <= h < |claims| && claims[h] == holder.value;
      assert Normalize(claims[h].topic) == Normalize(Normalize(topic));
    }
  }

  lemma NewClaimKeepsTopics(claims: seq<Claim>, c: Claim)
    requires DistinctTopics(claims) && TopicFree(claims, c.agent, c.topic)
    ensures DistinctTopics(Select(claims, NotOf(Lower(c.agent))) + [c])
  {
    var rest := Select(claims, NotOf(Lower(c.agent)));
    SelectKeepsTopics(claims, NotOf(Lower(c.agent)));
    NoneOf(claims, Lower(c.agent));
    forall i | 0 <= i < |rest| && Normalize(rest[i].topic) == Normalize(c.topic)
      ensures Normalize(Normalize(c.topic)) != Normalize(c.topic)
    {
      var k :| 0 <= k < |claims| && claims[k] == rest[i];
    }
  }

  lemma NewClaimKeepsSeats(claims: seq<Claim>, ps: seq<Proposal>, c: Claim)
    requires Seats(claims, ps) && OpenCountOf(ps, Lower(c.agent)) == 0
    requires (exists i :: 0 <= i < |claims| && Lower(claims[i].agent) == Lower(c.agent))
             || OpenCount(ps) + |Select(claims, NotOf(Lower(c.agent)))| < MAX_OPEN_PER_FUND
    ensures Seats(Select(claims, NotOf(Lower(c.agent))) + [c], ps)
  {
    var key := Lower(c.agent);
    SelectKeepsSeats(claims, NotOf(key), ps);
    NoneOf(claims, key);
    OpenCountOfZero(ps, key);
    if i :| 0 <= i < |claims| && Lower(claims[i].agent) == key {
      SelectShrinks(claims, NotOf(key), claims[i]);
    }
  }

  lemma CheckClaimFacts(s: FundState, agent: string, topic: string, now: Time)
    requires NamesOk(s.agents) && Trimmed(agent) && CheckClaim(s, agent, topic, now) == Allow
    ensures FindAgent(s, agent).Some? && Lower(s.agents[FindAgent(s, agent).value].name) == Lower(agent)
    ensures HasActive(s.agents, Lower(agent))
    ensures OpenCountOf(s.proposals, Lower(agent)) == 0
    ensures var holder := ClaimForTopic(s.claims, Normalize(topic), now);
            holder.Some? ==> Lower(holder.value.agent) == Lower(agent)
    ensures ClaimOf(s.claims, Lower(agent), now).Some?
            || OpenCount(s.proposals) + |Select(ActiveClaims(s.claims, now), NotOf(Lower(agent)))| < MAX_OPEN_PER_FUND
  {
    FindTrimmed(s, agent);
    ActiveCanAct(s, agent);
  }

  lemma LiveKeepsInv(s: FundState, now: Time)
    requires Inv(s)
    ensures var live := s.(claims := ActiveClaims(s.claims, now));
            Inv(live) && forall i :: 0 <= i < |live.claims| ==> live.claims[i].expiresAt > now
  {
    SelectKeepsInv(s, Live(now));
    SelectMembers(s.claims, Live(now));
    var live := ActiveClaims(s.claims, now);
    assert forall i :: 0 <= i < |live| ==> live[i] in live;
  }

  lemma TopicFreeSame(claims: seq<Claim>, agent: string, topic: string, c: Claim)
    requires TopicFree(claims, agent, topic) && Lower(c.agent) == Lower(agent) && Normalize(c.topic) == Normalize(topic)
    ensures TopicFree(claims, c.agent, c.topic)
  {}

  lemma RoomFor(claims: seq<Claim>, ps: seq<Proposal>, key: string, now: Time)
    requires forall i :: 0 <= i < |claims| ==> claims[i].expiresAt > now
    requires ClaimOf(claims, key, now).Some?
             || OpenCount(ps) + |Select(ActiveClaims(claims, now), NotOf(key))| < MAX_OPEN_PER_FUND
    ensures (exists i :: 0 <= i < |claims| && Lower(claims[i].agent) == key)
            || OpenCount(ps) + |Select(claims, NotOf(key))| < MAX_OPEN_PER_FUND
  {
    SelectAll(claims, Live(now));
  }

  lemma NewClaimKeepsOwned(claims: seq<Claim>, agents: seq<Agent>, c: Claim)
    requires ClaimsOwned(claims, agents) && HasActive(agents, Lower(c.agent))
    ensures ClaimsOwned(Select(claims, NotOf(Lower(c.agent))) + [c], agents)
  {
    SelectKeepsOwned(claims, NotOf(Lower(c.agent)), agents);
  }

  /** A claim for a checked topic, in place of the agent's own one. */
  lemma CheckedClaimKeepsInv(s: FundState, agent: string, topic: string, c: Claim, now: Time)
    requires Inv(s) && Trimmed(agent) && CheckClaim(s, agent, topic, now) == Allow
    requires forall i :: 0 <= i < |s.claims| ==> s.claims[i].expiresAt > now
    requires Lower(c.agent) == Lower(agent) && Normalize(c.topic) == Normalize(topic)
    ensures Inv(s.(claims := Select(s.claims, NotOf(Lower(agent))) + [c]))
  {
    CheckClaimFacts(s, agent, topic, now);
    CheckedTopicIsFree(s.claims, agent, topic, now);
    TopicFreeSame(s.claims, agent, topic, c);
    RoomFor(s.claims, s.proposals, Lower(agent), now);
    NewClaimKeepsTopics(s.claims, c);
    NewClaimKeepsSeats(s.claims, s.proposals, c);
    NewClaimKeepsOwned(s.claims, s.agents, c);
  }

  lemma ClaimTopicKeepsInv(s: FundState, agent: string, topic: string, now: Time)
    requires Inv(s) && Trimmed(agent) && Service.ClaimTopic(s, agent, topic, now).Done?
    ensures Inv(Service.ClaimTopic(s, agent, topic, now).state)
  {
    var live := s.(claims := ActiveClaims(s.claims, now));
    LiveKeepsInv(s, now);
    if ClaimOf(live.claims, Lower(agent), now).Some? {
      RefreshKeepsInv(live, Lower(agent), now);
    } else {
      CheckClaimFacts(live, agent, topic, now);
      NormalizeStrip(topic);
      var name := live.agents[FindAgent(live, agent).value].name;
      CheckedClaimKeepsInv(live, agent, topic, Claim(name, Strip(topic), now + CLAIM_TTL, ""), now);
      SelectAll(live.claims, NotOf(Lower(agent)));
    }
  }

  lemma RequestDraftKeepsInv(s: FundState, agent: string, ideaBy: string, topic: string, now: Time)
    requires Inv(s) && Trimmed(agent) && Service.RequestDraft(s, agent, ideaBy, topic, now).Done?
    ensures Inv(Service.RequestDraft(s, agent, ideaBy, topic, now).state)
  {
    var live := s.(claims := ActiveClaims(s.claims, now));
    LiveKeepsInv(s, now);
    CheckClaimFacts(live, agent, Strip(topic), now);
    var name := live.agents[FindAgent(live, agent).value].name;
    CheckedClaimKeepsInv(live, agent, Strip(topic), Claim(name, Strip(topic), now + CLAIM_TTL, ideaBy), now);
  }

  /** Recording a draft uses up a claim, so the quota holds. */
  lemma NewDraftKeepsSeats(claims: seq<Claim>, ps: seq<Proposal>, p: Proposal, claim: Claim)
    requires Seats(claims, ps) && claim in claims && Lower(claim.agent) == Lower(p.proposer)
    requires OpenCountOf(ps, Lower(p.proposer)) == 0
    ensures Seats(Select(claims, NotOf(Lower(p.proposer))), ps + [p])
  {
    var key := Lower(p.proposer);
    SelectKeepsSeats(claims, NotOf(key), ps);
    NoneOf(claims, key);
    SelectShrinks(claims, NotOf(key), claim);
    OpenCountOfZero(ps, key);
    assert (ps + [p])[..|ps|] == ps;
  }

  lemma CheckDraftFacts(s: FundState, agent: string, b: Brief, now: Time)
    requires Trimmed(agent) && CheckDraft(s, agent, b, now) == Allow
    ensures FindAgent(s, agent).Some? && Lower(s.agents[FindAgent(s, agent).value].name) == Lower(agent)
    ensures OpenCountOf(s.proposals, Lower(agent)) == 0
    ensures ClaimOf(s.claims, Lower(agent), now).Some?
  {
    FindTrimmed(s, agent);
  }

  lemma DraftKeepsInv(s: FundState, agent: string, b: Brief, now: Time)
    requires Inv(s) && Trimmed(agent) && Service.DraftProposal(s, agent, b, now).Done?
    ensures Inv(Service.DraftProposal(s, agent, b, now).state)
  {
    var live := s.(claims := ActiveClaims(s.claims, now));
    LiveKeepsInv(s, now);
    CheckDraftFacts(live, agent, b, now);
    var record := Service.DraftRecord(live, agent, b, now);
    NewDraftKeepsSeats(live.claims, s.proposals, record, ClaimOf(live.claims, Lower(agent), now).value);
    SelectKeepsTopics(live.claims, NotOf(Lower(agent)));
    SelectKeepsOwned(live.claims, NotOf(Lower(agent)), s.agents);
  }

  // ----- every action, every run

  lemma AgentStepKeepsInv(s: FundState, a: Action, now: Time)
    requires Inv(s) && MovesAgents(a) && a.NamesTrimmed() && Apply(s, a, now).Done?
    ensures Inv(Apply(s, a, now).state)
  {
    match a {
      case RequestAgent(name, identityId, address) =>
        var existing := FindAgent(s, name);
        if existing.Some? && !s.agents[existing.value].removed {
          AgentUpdateKeepsInv(s, existing.value, s.agents[existing.value].(identityId := identityId, address := address));
        } else {
          AgentReplaceKeepsInv(s, existing, Agent(name, identityId, address, Guest, false, false, false));
        }
      case ApproveAgent(_, name, landed, _) =>
        var i := FindTarget(s, name).value;
        AgentUpdateKeepsInv(s, i, s.agents[i].(approved := true, registered := landed));
      case RemoveAgent(_, name, _) =>
        RemoveAgentKeepsInv(s, FindTarget(s, name).value);
    }
  }

  lemma ClaimStepKeepsInv(s: FundState, a: Action, now: Time)
    requires Inv(s) && MovesClaims(a) && !MovesAgents(a) && a.NamesTrimmed() && Apply(s, a, now).Done?
    ensures Inv(Apply(s, a, now).state)
  {
    match a {
      case ClaimTopic(agent, topic) => ClaimTopicKeepsInv(s, agent, topic, now);
      case ReleaseClaim(agent, topic) =>
        SelectKeepsInv(s, Live(now));
        SelectKeepsInv(s.(claims := ActiveClaims(s.claims, now)), NotReleased(agent, topic));
      case RequestDraft(agent, ideaBy, topic) => RequestDraftKeepsInv(s, agent, ideaBy, topic, now);
      case DraftProposal(agent, brief) => DraftKeepsInv(s, agent, brief, now);
    }
  }

  /** Every action keeps the invariant, whatever the clock says. */
  lemma StepKeepsInv(s: FundState, a: Action, now: Time)
    requires Inv(s) && a.NamesTrimmed()
    ensures Inv(Next(s, a, now))
  {
    if Apply(s, a, now).Done? {
      if MovesAgents(a) {
        AgentStepKeepsInv(s, a, now);
      } else if MovesClaims(a) {
        ClaimStepKeepsInv(s, a, now);
      } else {
        if ActsOnOneProposal(a) {
          OneProposalStep(s, a, now);
        } else {
          OtherStep(s, a, now);
        }
        StepEvolves(s, a, now);
        EvolveKeepsSeats(s.claims, s.proposals, Next(s, a, now).proposals);
      }
    }
  }

  lemma FreshInv(s: FundState)
    requires Fresh(s)
    ensures Inv(s)
  {}

  lemma {:induction false} RunKeepsInv(s: FundState, script: Script)
    requires Inv(s) && NamesTrimmed(script)
    ensures Inv(After(s, script))
  {
    if script != [] {
      var n := |script| - 1;
      RunKeepsInv(s, script[..n]);
      StepKeepsInv(After(s, script[..n]), script[n].action, script[n].now);
    }
  }

  /** In every reachable state, at any clock readings: open proposals and stored claims number at most two,
      an agent has at most one open proposal, never one together with a claim, claims have different agents
      and (up to topics that normalize twice) different topics, and each belongs to a registered agent that
      was not removed. */
  lemma ReachableQuotas(s: FundState, script: Script)
    requires Fresh(s) && NamesTrimmed(script)
    ensures var t := After(s, script);
            && OpenCount(t.proposals) + |t.claims| <= 2
            && OneOpenEach(t.proposals)
            && ClaimOrOpen(t.claims, t.proposals)
            && DistinctAgents(t.claims)
            && DistinctTopics(t.claims)
            && ClaimsOwned(t.claims, t.agents)
  {
    FreshInv(s);
    RunKeepsInv(s, script);
  }
}
