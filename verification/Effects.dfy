/** For every action that goes through, the state it leaves, said of the records. */
module Effects {
  import opened Lists
  import opened Text
  import opened Numerals
  import opened Topics
  import opened FundModel
  import opened Rules
  import opened Protocol
  import opened Terms
  import opened Acceptance
  import Service

  /** The elements at those places, in order. */
  function Pick<T>(xs: seq<T>, at: set<nat>): seq<T> {
    if xs == [] then [] else Pick(xs[..|xs| - 1], at) + (if |xs| - 1 in at then [xs[|xs| - 1]] else [])
  }

  // ----- members

  /** An address is filled in, never overwritten. */
  function WithAddress(m: Member, address: string): Member {
    if m.address == "" then m.(address := address) else m
  }

  ghost predicate MembershipEffect(s: FundState, telegramId: string, address: string, t: FundState) {
    if NobodyKnown(s, telegramId, address) then
      t == s.(members := s.members + [Member(telegramId := telegramId, address := address, approved := false, memberNo := None)])
    else
      exists i: nat :: KnownAs(s, telegramId, address, i) && t == s.(members := s.members[i := WithAddress(s.members[i], address)])
  }

  /** Whoever is approved gets the next number; a new member is recorded under the address or the id it was named by. */
  ghost predicate ApprovalEffect(s: FundState, who: string, address: string, t: FundState) {
    && t == s.(members := t.members, nextMemberNo := s.nextMemberNo + 1)
    && if NobodyKnown(s, who, address) then
         t.members == s.members + [Member(telegramId := if IsAddress(who) then "" else who,
                                          address := if IsAddress(who) then who else address,
                                          approved := true, memberNo := Some(s.nextMemberNo))]
       else
         exists i: nat :: KnownAs(s, who, address, i)
           && t.members == s.members[i := WithAddress(s.members[i], address).(approved := true, memberNo := Some(s.nextMemberNo))]
  }

  lemma MembershipIs(s: FundState, telegramId: string, address: string)
    requires Service.RequestMembership(s, telegramId, address).Done?
    ensures MembershipEffect(s, telegramId, address, Service.RequestMembership(s, telegramId, address).state)
  {
    KnownIs(s, telegramId, address);
    var t := Service.RequestMembership(s, telegramId, address).state;
    if NobodyKnown(s, telegramId, address) {
      assert t.members == s.members + [Member(telegramId, address, false, None)];
    } else {
      var i := Service.Known(s, telegramId, address).value;
      assert t.members == s.members[i := WithAddress(s.members[i], address)];
    }
  }

  lemma ApprovalIs(s: FundState, actor: string, who: string, address: string, caller: Option<string>)
    requires Service.ApproveMember(s, actor, who, address, caller).Done?
    ensures ApprovalEffect(s, who, address, Service.ApproveMember(s, actor, who, address, caller).state)
  {
    KnownIs(s, who, address);
    var t := Service.ApproveMember(s, actor, who, address, caller).state;
    if NobodyKnown(s, who, address) {
      var m := t.members[|s.members|];
      assert t.members == s.members + [m];
    }
  }

  // ----- agents

  /** A present agent's application is rewritten, a removed agent's record goes; a new one waits at the end. */
  ghost predicate ApplicationEffect(s: FundState, name: string, identityId: string, address: string, t: FundState) {
    var guest := Agent(name := name, identityId := identityId, address := address, role := Guest,
                       approved := false, registered := false, removed := false);
    if NoAgentNamed(s, name) then t == s.(agents := s.agents + [guest])
    else
      exists i: nat :: NamesAgent(s, name, i)
        && t == s.(agents := if s.agents[i].removed then s.agents[..i] + s.agents[i + 1..] + [guest]
                             else s.agents[i := s.agents[i].(identityId := identityId, address := address)])
  }

  ghost predicate AgentApprovalEffect(s: FundState, name: string, landed: bool, t: FundState) {
    exists i: nat :: MeansAgent(s, name, i) && t == s.(agents := s.agents[i := s.agents[i].(approved := true, registered := landed)])
  }

  function ElsewherePlaces(claims: seq<Claim>, key: string): set<nat> {
    set i: nat | i < |claims| && Lower(claims[i].agent) != key
  }

  /** The agent is marked, its claims go and its drafts are cancelled. */
  ghost predicate RemovalEffect(s: FundState, name: string, t: FundState) {
    exists i: nat :: MeansAgent(s, name, i) && Removes(s, i, t)
  }

  predicate Removes(s: FundState, i: nat, t: FundState)
    requires i < |s.agents|
  {
    var key := Lower(s.agents[i].name);
    && t == s.(agents := s.agents[i := s.agents[i].(removed := true)],
               claims := Pick(s.claims, ElsewherePlaces(s.claims, key)), proposals := t.proposals)
    && |t.proposals| == |s.proposals|
    && forall j :: 0 <= j < |s.proposals| ==>
         t.proposals[j] == if s.proposals[j].status == Draft && Lower(s.proposals[j].proposer) == key
                           then s.proposals[j].(status := Cancelled) else s.proposals[j]
  }

  lemma ApplicationIs(s: FundState, name: string, identityId: string, address: string)
    requires Service.RequestAgent(s, name, identityId, address).Done?
    ensures ApplicationEffect(s, name, identityId, address, Service.RequestAgent(s, name, identityId, address).state)
  {
    FindsAgent(s, name);
  }

  lemma AgentApprovalIs(s: FundState, actor: string, name: string, landed: bool, caller: Option<string>)
    requires Service.ApproveAgent(s, actor, name, landed, caller).Done?
    ensures AgentApprovalEffect(s, name, landed, Service.ApproveAgent(s, actor, name, landed, caller).state)
  {
    FindsTarget(s, name);
  }

  lemma RemovalIs(s: FundState, actor: string, name: string, caller: Option<string>)
    requires Service.RemoveAgent(s, actor, name, caller).Done?
    ensures RemovalEffect(s, name, Service.RemoveAgent(s, actor, name, caller).state)
  {
    FindsTarget(s, name);
    var i := FindTarget(s, name).value;
    SelectIsPick(s.claims, NotOf(Lower(s.agents[i].name)), ElsewherePlaces(s.claims, Lower(s.agents[i].name)));
    assert Removes(s, i, Service.RemoveAgent(s, actor, name, caller).state);
  }

  // ----- claims

  function LivePlaces(claims: seq<Claim>, now: Time): set<nat> {
    set i: nat | i < |claims| && claims[i].expiresAt > now
  }

  function UnreleasedPlaces(claims: seq<Claim>, agent: string, topic: string, now: Time): set<nat> {
    set i: nat | i < |claims| && claims[i].expiresAt > now
                 && (Lower(claims[i].agent) != Lower(agent) || (topic != "" && Normalize(claims[i].topic) != Normalize(topic)))
  }

  lemma {:induction false} SelectIsPick(claims: seq<Claim>, t: ClaimTest, at: set<nat>)
    requires forall i: nat :: i < |claims| ==> (i in at <==> Passes(claims[i], t))
    ensures Select(claims, t) == Pick(claims, at)
  {
    if claims != [] {
      SelectIsPick(claims[..|claims| - 1], t, at);
    }
  }

  lemma {:induction false} SelectLiveIsPick(claims: seq<Claim>, now: Time, t: ClaimTest, at: set<nat>)
    requires forall i: nat :: i < |claims| ==> (i in at <==> claims[i].expiresAt > now && Passes(claims[i], t))
    ensures Select(ActiveClaims(claims, now), t) == Pick(claims, at)
  {
    if claims != [] {
      var n := |claims| - 1;
      var live := ActiveClaims(claims[..n], now);
      SelectLiveIsPick(claims[..n], now, t, at);
      SelectSnoc(live, claims[n], t);
      assert ActiveClaims(claims, now) == live + (if claims[n].expiresAt > now then [claims[n]] else []);
      assert live + [] == live;
    }
  }

  lemma {:induction false} RefreshLive(claims: seq<Claim>, key: string, now: Time, i: nat)
    requires FirstOwn(claims, key, now, i)
    ensures Service.RefreshClaim(ActiveClaims(claims, now), key, now)
            == ActiveClaims(claims[i := claims[i].(expiresAt := now + CLAIM_TTL)], now)
  {
    var more := claims[i := claims[i].(expiresAt := now + CLAIM_TTL)];
    LiveCons(claims, now);
    LiveCons(more, now);
    if i > 0 {
      assert FirstOwn(claims[1..], key, now, i - 1);
      RefreshLive(claims[1..], key, now, i - 1);
      assert more[1..] == claims[1..][i - 1 := claims[i].(expiresAt := now + CLAIM_TTL)];
    } else {
      assert more[1..] == claims[1..];
    }
  }

  /** Dead claims go. The agent's claim lives 600 seconds from now on, or a new one does, under its name and with the topic stripped. */
  ghost predicate ClaimEffect(s: FundState, agent: string, topic: string, now: Time, t: FundState) {
    var live := LivePlaces(s.claims, now);
    || (exists i: nat :: FirstOwn(s.claims, Lower(agent), now, i)
          && t == s.(claims := Pick(s.claims[i := s.claims[i].(expiresAt := now + 600.0)], live)))
    || ((forall i: nat :: !FirstOwn(s.claims, Lower(agent), now, i))
        && exists k: nat :: NamesAgent(s, agent, k)
             && t == s.(claims := Pick(s.claims, live) + [NewClaim(s.agents[k].name, topic, now, "")]))
  }

  function NewClaim(name: string, topic: string, now: Time, ideaBy: string): Claim {
    Claim(agent := name, topic := Strip(topic), expiresAt := now + 600.0, ideaBy := ideaBy)
  }

  /** Dead claims go, and so does the agent's own one; the new one carries who had the idea. */
  ghost predicate RequestEffect(s: FundState, agent: string, ideaBy: string, topic: string, now: Time, t: FundState) {
    exists k: nat :: NamesAgent(s, agent, k)
      && t == s.(claims := Pick(s.claims, OthersPlaces(s.claims, Lower(s.agents[k].name), now))
                           + [NewClaim(s.agents[k].name, topic, now, ideaBy)])
  }

  /** Dead claims go, and the agent's on that topic, or on any if none is named. */
  ghost predicate ReleaseEffect(s: FundState, agent: string, topic: string, now: Time, t: FundState) {
    t == s.(claims := Pick(s.claims, UnreleasedPlaces(s.claims, agent, topic, now)))
  }

  lemma ClaimRefreshed(s: FundState, agent: string, topic: string, now: Time, i: nat)
    requires FirstOwn(s.claims, Lower(agent), now, i) && Service.ClaimTopic(s, agent, topic, now).Done?
    ensures Service.ClaimTopic(s, agent, topic, now).state
            == s.(claims := Pick(s.claims[i := s.claims[i].(expiresAt := now + 600.0)], LivePlaces(s.claims, now)))
  {
    OwnIff(s.claims, Lower(agent), now);
    RefreshLive(s.claims, Lower(agent), now, i);
    SelectIsPick(s.claims[i := s.claims[i].(expiresAt := now + 600.0)], Live(now), LivePlaces(s.claims, now));
  }

  lemma ClaimIsNew(s: FundState, agent: string, topic: string, now: Time, k: nat)
    requires (forall i: nat :: !FirstOwn(s.claims, Lower(agent), now, i)) && NamesAgent(s, agent, k)
    requires Service.ClaimTopic(s, agent, topic, now).Done?
    ensures Service.ClaimTopic(s, agent, topic, now).state
            == s.(claims := Pick(s.claims, LivePlaces(s.claims, now)) + [NewClaim(s.agents[k].name, topic, now, "")])
  {
    OwnIff(s.claims, Lower(agent), now);
    FindsAgent(s, agent);
    SelectIsPick(s.claims, Live(now), LivePlaces(s.claims, now));
  }

  lemma AllowedIsNamed(s: FundState, agent: string, topic: string, now: Time)
    requires CheckClaim(s, agent, topic, now) == Allow
    ensures FindAgent(s, agent).Some? && NamesAgent(s, agent, FindAgent(s, agent).value)
  {
    FindsAgent(s, agent);
  }

  lemma ClaimIs(s: FundState, agent: string, topic: string, now: Time)
    requires Service.ClaimTopic(s, agent, topic, now).Done?
    ensures ClaimEffect(s, agent, topic, now, Service.ClaimTopic(s, agent, topic, now).state)
  {
    if i: nat :| FirstOwn(s.claims, Lower(agent), now, i) {
      ClaimRefreshed(s, agent, topic, now, i);
    } else {
      var live := s.(claims := ActiveClaims(s.claims, now));
      AllowedIsNamed(live, agent, topic, now);
      var k := FindAgent(live, agent).value;
      assert NamesAgent(s, agent, k);
      ClaimIsNew(s, agent, topic, now, k);
    }
  }

  lemma RequestIs(s: FundState, agent: string, ideaBy: string, topic: string, now: Time)
    requires Service.RequestDraft(s, agent, ideaBy, topic, now).Done?
    ensures RequestEffect(s, agent, ideaBy, topic, now, Service.RequestDraft(s, agent, ideaBy, topic, now).state)
  {
    var live := s.(claims := ActiveClaims(s.claims, now));
    AllowedIsNamed(live, agent, Strip(topic), now);
    var k := FindAgent(live, agent).value;
    assert NamesAgent(s, agent, k);
    RequestedIs(s, agent, ideaBy, topic, now, k);
  }

  lemma RequestedIs(s: FundState, agent: string, ideaBy: string, topic: string, now: Time, k: nat)
    requires FindAgent(s, agent) == Some(k) && k < |s.agents| && Service.RequestDraft(s, agent, ideaBy, topic, now).Done?
    ensures Service.RequestDraft(s, agent, ideaBy, topic, now).state
            == s.(claims := Pick(s.claims, OthersPlaces(s.claims, Lower(s.agents[k].name), now))
                            + [NewClaim(s.agents[k].name, topic, now, ideaBy)])
  {
    var key := Lower(s.agents[k].name);
    RequestDone(s, agent, ideaBy, topic, now, k);
    SelectLiveIsPick(s.claims, now, NotOf(key), OthersPlaces(s.claims, key, now));
  }

  lemma RequestDone(s: FundState, agent: string, ideaBy: string, topic: string, now: Time, k: nat)
    requires FindAgent(s, agent) == Some(k) && k < |s.agents| && Service.RequestDraft(s, agent, ideaBy, topic, now).Done?
    ensures Service.RequestDraft(s, agent, ideaBy, topic, now).state
            == s.(claims := Select(ActiveClaims(s.claims, now), NotOf(Lower(s.agents[k].name)))
                            + [NewClaim(s.agents[k].name, topic, now, ideaBy)])
  {}

  lemma ReleaseIs(s: FundState, agent: string, topic: string, now: Time)
    ensures ReleaseEffect(s, agent, topic, now, Service.ReleaseClaim(s, agent, topic, now).state)
  {
    SelectLiveIsPick(s.claims, now, NotReleased(agent, topic), UnreleasedPlaces(s.claims, agent, topic, now));
  }

  // ----- drafts

  /** What is recorded: the brief under the agent's name and the next id, credited to the brief's idea giver or else the claim's. */
  predicate RecordOf(p: Proposal, id: nat, proposer: string, b: Brief, claimIdea: string) {
    && p.id == id && p.proposer == proposer && p.topic == Strip(b.topic) && p.thesis == Strip(b.thesis)
    && p.legs == b.legs && p.maxCapital == b.maxCapital && p.maxDrawdownBps == b.maxDrawdownBps
    && p.ideaBy == (if b.ideaBy != "" then b.ideaBy else claimIdea)
    && p.status == Draft && p.onchainId.None? && p.votingEndsAt.None? && p.reviewEndsAt.None? && p.againstBps == 0
    && p.shippedAt.None? && p.backers == [] && p.objectors == [] && p.reviews == []
  }

  ghost predicate DraftEffect(s: FundState, agent: string, b: Brief, now: Time, t: FundState) {
    exists k: nat, i: nat :: NamesAgent(s, agent, k) && FirstOwn(s.claims, Lower(agent), now, i) && Drafts(s, k, i, b, now, t)
  }

  predicate Drafts(s: FundState, k: nat, i: nat, b: Brief, now: Time, t: FundState)
    requires k < |s.agents| && i < |s.claims|
  {
    && t == s.(nextProposalSeq := s.nextProposalSeq + 1, proposals := t.proposals,
               claims := Pick(s.claims, OthersPlaces(s.claims, Lower(s.agents[k].name), now)))
    && |t.proposals| == |s.proposals| + 1 && t.proposals[..|s.proposals|] == s.proposals
    && RecordOf(t.proposals[|s.proposals|], s.nextProposalSeq, s.agents[k].name, b, s.claims[i].ideaBy)
  }

  lemma DraftIs(s: FundState, agent: string, b: Brief, now: Time)
    requires Service.DraftProposal(s, agent, b, now).Done?
    ensures DraftEffect(s, agent, b, now, Service.DraftProposal(s, agent, b, now).state)
  {
    DraftProposalIff(s, agent, b, now);
    OwnIff(s.claims, Lower(agent), now);
    var k: nat :| NamesAgent(s, agent, k) && s.agents[k].registered;
    var i: nat :| FirstOwn(s.claims, Lower(agent), now, i);
    FindsAgent(s, agent);
    DraftedIs(s, agent, b, now, k, i);
  }

  lemma DraftedIs(s: FundState, agent: string, b: Brief, now: Time, k: nat, i: nat)
    requires FindAgent(s, agent) == Some(k) && k < |s.agents|
    requires i < |s.claims| && ClaimOf(ActiveClaims(s.claims, now), Lower(agent), now) == Some(s.claims[i])
    requires Service.DraftProposal(s, agent, b, now).Done?
    ensures Drafts(s, k, i, b, now, Service.DraftProposal(s, agent, b, now).state)
  {
    var key := Lower(s.agents[k].name);
    SelectLiveIsPick(s.claims, now, NotOf(key), OthersPlaces(s.claims, key, now));
  }

  // ----- one proposal

  /** Only proposal r changes, to q. */
  predicate Sets(s: FundState, r: nat, q: Proposal, t: FundState)
    requires r < |s.proposals|
  {
    t == s.(proposals := s.proposals[r := q])
  }

  ghost predicate ShipEffect(s: FundState, ref: Ref, now: Time, t: FundState) {
    exists r: nat :: NamesProposal(s, ref, r) && Sets(s, r, s.proposals[r].(shippedAt := Some(now)), t)
  }

  /** The fund cools until the later of the time it did already and one cooldown period from now. */
  predicate Cools(f: Fund, now: Time, g: Fund) {
    var until := now + (if f.cooldownPeriod > 0 then f.cooldownPeriod as real else 0.0);
    && g == f.(cooldownUntil := g.cooldownUntil) && g.cooldownUntil.Some?
    && g.cooldownUntil.value >= until && (f.cooldownUntil.Some? ==> g.cooldownUntil.value >= f.cooldownUntil.value)
    && (g.cooldownUntil.value == until || g.cooldownUntil == f.cooldownUntil)
  }

  lemma CoolsIs(f: Fund, now: Time)
    ensures Cools(f, now, Service.StartCooldown(f, now))
  {}

  /** A move to `target`: voting starts its clock, guardian review starts one that is not running, and a veto the cooldown. */
  predicate Steers(s: FundState, r: nat, target: Status, onchainId: Option<int>, now: Time, t: FundState)
    requires r < |s.proposals|
  {
    var p, ends := s.proposals[r], now + s.fund.votingPeriod as real;
    && t == s.(fund := t.fund, proposals := s.proposals[r := p.(
         status := target,
         onchainId := if onchainId == None then p.onchainId else onchainId,
         votingEndsAt := if target == Proposed then Some(ends) else p.votingEndsAt,
         reviewEndsAt := if target == Review && p.reviewEndsAt == None then Some(ends) else p.reviewEndsAt)])
    && (if target == Vetoed then Cools(s.fund, now, t.fund) else t.fund == s.fund)
  }

  ghost predicate StatusEffect(s: FundState, ref: Ref, target: Option<Status>, onchainId: Option<int>, now: Time, t: FundState) {
    target.Some? && exists r: nat :: NamesProposal(s, ref, r) && Steers(s, r, target.value, onchainId, now, t)
  }

  /** What the chain read says is written; a share of objections that is negative counts as none. */
  ghost predicate ReadingEffect(s: FundState, ref: Ref, x: Service.Reading, t: FundState) {
    exists r: nat :: NamesProposal(s, ref, r) && Reads(s.proposals[r], x, s, r, t)
  }

  predicate Reads(p: Proposal, x: Service.Reading, s: FundState, r: nat, t: FundState)
    requires r < |s.proposals|
  {
    && |t.proposals| == |s.proposals|
    && var q := t.proposals[r];
       && Sets(s, r, q, t) && q == p.(againstBps := q.againstBps, votingEndsAt := q.votingEndsAt, reviewEndsAt := q.reviewEndsAt)
       && q.againstBps == (match x.againstBps case None => p.againstBps case Some(n) => if n < 0 then 0 else n)
       && q.votingEndsAt == (match x.votingEndsAt case None => p.votingEndsAt case Some(at) => Some(at))
       && q.reviewEndsAt == (match x.reviewEndsAt case None => p.reviewEndsAt case Some(at) => Some(at))
  }

  lemma ShipIs(s: FundState, ref: Ref, caller: Option<string>, now: Time)
    requires Service.ShipDraft(s, ref, caller, now).Done?
    ensures ShipEffect(s, ref, now, Service.ShipDraft(s, ref, caller, now).state)
  {
    FindsProposal(s, ref);
  }

  lemma StatusIs(s: FundState, actor: string, ref: Ref, target: Option<Status>, onchainId: Option<int>, now: Time)
    requires Service.SetStatus(s, actor, ref, target, onchainId, now).Done?
    ensures StatusEffect(s, ref, target, onchainId, now, Service.SetStatus(s, actor, ref, target, onchainId, now).state)
  {
    FindsProposal(s, ref);
    CoolsIs(s.fund, now);
    var r := ProposalIndex(s.proposals, ref).value;
    SteersIs(s, r, target.value, onchainId, now);
  }

  lemma SteersIs(s: FundState, r: nat, target: Status, onchainId: Option<int>, now: Time)
    requires r < |s.proposals| && target in Transitions(s.proposals[r].status)
    ensures Steers(s, r, target, onchainId, now, Service.AfterMove(s, r, target, onchainId, now))
  {
    CoolsIs(s.fund, now);
  }

  lemma ReadingIs(s: FundState, ref: Ref, x: Service.Reading)
    requires Service.SetChainState(s, ref, x).Done?
    ensures ReadingEffect(s, ref, x, Service.SetChainState(s, ref, x).state)
  {
    FindsProposal(s, ref);
    var r := ProposalIndex(s.proposals, ref).value;
    assert Reads(s.proposals[r], x, s, r, Service.SetChainState(s, ref, x).state);
  }

  // ----- the fund record

  predicate CardEffect(s: FundState, c: Service.FundCard, t: FundState) {
    && t == s.(fund := s.fund.(cooldownPeriod := t.fund.cooldownPeriod, vetoThresholdBps := t.fund.vetoThresholdBps,
                               cooldownUntil := t.fund.cooldownUntil, agentFeeBps := t.fund.agentFeeBps))
    && (match c.cooldownPeriod case None => t.fund.cooldownPeriod == s.fund.cooldownPeriod case Some(n) => t.fund.cooldownPeriod == n)
    && (match c.vetoThresholdBps case None => t.fund.vetoThresholdBps == s.fund.vetoThresholdBps case Some(n) => t.fund.vetoThresholdBps == n)
    && (match c.gate case None => t.fund.cooldownUntil == s.fund.cooldownUntil case Some(at) => t.fund.cooldownUntil == at)
    && (match c.agentFeeBps case None => t.fund.agentFeeBps == s.fund.agentFeeBps case Some(n) => t.fund.agentFeeBps == Some(n))
  }

  predicate SettingsEffect(s: FundState, x: Service.Settings, t: FundState) {
    && t == s.(fund := s.fund.(hostTelegramId := t.fund.hostTelegramId, votingPeriod := t.fund.votingPeriod,
                               maxCapital := t.fund.maxCapital, maxDrawdownBps := t.fund.maxDrawdownBps,
                               agentFeeBps := t.fund.agentFeeBps))
    && t.fund.hostTelegramId == x.hostTelegramId && t.fund.votingPeriod == x.votingPeriod && t.fund.maxCapital == x.maxCapital
    && t.fund.maxDrawdownBps == x.maxDrawdownBps && t.fund.agentFeeBps == x.agentFeeBps
  }

  /** A row moves its proposal as the chain says, if that is a legal step; a veto starts the cooldown. */
  ghost predicate RowEffect(s: FundState, id: nat, state: Service.ChainState, now: Time, t: FundState) {
    || (exists r: nat :: NamesProposal(s, Local(id), r) && Rows(s, r, state, now, t))
    || (t == s && forall r: nat :: NamesProposal(s, Local(id), r) ==> !LeadsTo(s.proposals[r].status, OnChainStatus(state)))
  }

  function OnChainStatus(state: Service.ChainState): Status {
    if state.Rejected? then Vetoed else if state.ChainExecuted? then Executed else if state.ChainApproved? then Approved else Review
  }

  predicate Rows(s: FundState, r: nat, state: Service.ChainState, now: Time, t: FundState)
    requires r < |s.proposals|
  {
    && LeadsTo(s.proposals[r].status, OnChainStatus(state))
    && t == s.(fund := t.fund, proposals := s.proposals[r := s.proposals[r].(status := OnChainStatus(state))])
    && (if state.Rejected? then Cools(s.fund, now, t.fund) else t.fund == s.fund)
  }

  lemma CardIs(s: FundState, c: Service.FundCard)
    ensures CardEffect(s, c, Service.ApplyFundCard(s, c).state)
  {}

  lemma SettingsIs(s: FundState, x: Service.Settings)
    ensures SettingsEffect(s, x, Service.Configure(s, x).state)
  {}

  lemma RowIs(s: FundState, id: nat, state: Service.ChainState, now: Time)
    ensures RowEffect(s, id, state, now, Service.ApplyChainStatus(s, id, state, now).state)
  {
    FindsProposal(s, Local(id));
    CoolsIs(s.fund, now);
    var r := ProposalIndex(s.proposals, Local(id));
    if r.Some? {
      LeadsIff(s.proposals[r.value].status, OnChainStatus(state));
      if LeadsTo(s.proposals[r.value].status, OnChainStatus(state)) {
        assert Rows(s, r.value, state, now, Service.ApplyChainStatus(s, id, state, now).state);
      }
    }
  }

  // ----- votes and settlement

  function NotPlaces(xs: seq<string>, x: string): set<nat> {
    set i: nat | i < |xs| && xs[i] != x
  }

  function NotByPlaces(rs: seq<AgentReview>, key: string): set<nat> {
    set i: nat | i < |rs| && Lower(rs[i].agent) != key
  }

  /** The voter is named by its telegram id, or by its address if it has none; it leaves both sides and joins the one it votes for. */
  ghost predicate BallotEffect(s: FundState, ref: Ref, voter: string, ballot: Service.Ballot, t: FundState) {
    exists r: nat, i: nat :: NamesProposal(s, ref, r) && NamesMember(s, voter, i) && Votes(s, r, VoterId(s.members[i]), ballot, t)
  }

  function VoterId(m: Member): string {
    if m.telegramId == "" then m.address else m.telegramId
  }

  predicate Votes(s: FundState, r: nat, voter: string, ballot: Service.Ballot, t: FundState)
    requires r < |s.proposals|
  {
    var p := s.proposals[r];
    var back := Pick(p.backers, NotPlaces(p.backers, voter));
    var against := Pick(p.objectors, NotPlaces(p.objectors, voter));
    Sets(s, r, p.(backers := if ballot == Service.Cast(Back) then back + [voter] else back,
                  objectors := if ballot == Service.Cast(Object) then against + [voter] else against), t)
  }

  /** An agent's review takes the place of its last one. */
  ghost predicate ReviewEffect(s: FundState, ref: Ref, agent: string, ballot: Service.Ballot, t: FundState) {
    exists r: nat, k: nat :: NamesProposal(s, ref, r) && NamesAgent(s, agent, k) && Reviews(s, r, s.agents[k].name, ballot, t)
  }

  predicate Reviews(s: FundState, r: nat, name: string, ballot: Service.Ballot, t: FundState)
    requires r < |s.proposals|
  {
    var p := s.proposals[r];
    ballot.Cast? && Sets(s, r, p.(reviews := Pick(p.reviews, NotByPlaces(p.reviews, Lower(name))) + [AgentReview(name, ballot.side)]), t)
  }

  /** The proposal is settled, the fund cools, and one receipt is added. */
  ghost predicate SettleEffect(s: FundState, ref: Ref, pnl: int, now: Time, t: FundState) {
    exists r: nat :: NamesProposal(s, ref, r) && Settles(s, r, pnl, now, t)
  }

  predicate Settles(s: FundState, r: nat, pnl: int, now: Time, t: FundState)
    requires r < |s.proposals|
  {
    && t == s.(fund := t.fund, receipts := t.receipts, proposals := s.proposals[r := s.proposals[r].(status := Settled)])
    && Cools(s.fund, now, t.fund)
    && |t.receipts| == |s.receipts| + 1 && t.receipts[..|s.receipts|] == s.receipts
    && CreditOf(t.receipts[|s.receipts|], s.proposals[r], pnl, now)
  }

  /** The receipt credits the agent that proposed and the person whose idea it was. */
  predicate CreditOf(c: Receipt, p: Proposal, pnl: int, now: Time) {
    c.proposalId == p.id && c.agent == p.proposer && c.ideaBy == p.ideaBy && c.pnl == pnl && c.settledAt == now
  }

  lemma WithoutSnoc(xs: seq<string>, y: string, x: string)
    ensures Without(xs + [y], x) == Without(xs, x) + (if y == x then [] else [y])
  {
    if xs == [] {
      assert [y][1..] == [];
      assert Without([y], x) == (if y == x then [] else [y]) + Without([], x);
    } else {
      assert (xs + [y])[1..] == xs[1..] + [y];
      WithoutSnoc(xs[1..], y, x);
    }
  }

  lemma {:induction false} WithoutIsPick(xs: seq<string>, x: string, at: set<nat>)
    requires forall i: nat :: i < |xs| ==> (i in at <==> xs[i] != x)
    ensures Without(xs, x) == Pick(xs, at)
  {
    if xs != [] {
      var n := |xs| - 1;
      WithoutIsPick(xs[..n], x, at);
      WithoutSnoc(xs[..n], xs[n], x);
      assert xs[..n] + [xs[n]] == xs;
    }
  }

  lemma {:induction false} ReviewsIsPick(rs: seq<AgentReview>, key: string, at: set<nat>)
    requires forall i: nat :: i < |rs| ==> (i in at <==> Lower(rs[i].agent) != key)
    ensures Service.ReviewsNotBy(rs, key) == Pick(rs, at)
  {
    if rs != [] {
      ReviewsIsPick(rs[..|rs| - 1], key, at);
    }
  }

  lemma VotedIs(p: Proposal, voter: string, ballot: Service.Ballot, s: FundState, r: nat)
    requires r < |s.proposals| && p == s.proposals[r]
    ensures Votes(s, r, voter, ballot, s.(proposals := s.proposals[r := Service.Voted(p, voter, ballot)]))
  {
    WithoutIsPick(p.backers, voter, NotPlaces(p.backers, voter));
    WithoutIsPick(p.objectors, voter, NotPlaces(p.objectors, voter));
    assert Without(p.backers, voter) + [] == Without(p.backers, voter);
    assert Without(p.objectors, voter) + [] == Without(p.objectors, voter);
  }

  lemma BallotIs(s: FundState, ref: Ref, voter: string, ballot: Service.Ballot, now: Time)
    requires Service.RecordMemberVote(s, ref, voter, ballot, now).Done?
    ensures BallotEffect(s, ref, voter, ballot, Service.RecordMemberVote(s, ref, voter, ballot, now).state)
  {
    FindsProposal(s, ref);
    FindsMember(s, voter);
    var r, i := ProposalIndex(s.proposals, ref).value, FindMember(s, voter).value;
    VotedIs(s.proposals[r], VoterId(s.members[i]), ballot, s, r);
    assert Service.BallotId(s.members[i]) == VoterId(s.members[i]);
  }

  lemma ReviewIs(s: FundState, ref: Ref, agent: string, ballot: Service.Ballot)
    requires Service.RecordAgentReview(s, ref, agent, ballot).Done?
    ensures ReviewEffect(s, ref, agent, ballot, Service.RecordAgentReview(s, ref, agent, ballot).state)
  {
    FindsProposal(s, ref);
    FindsAgent(s, agent);
    var r, k := ProposalIndex(s.proposals, ref).value, FindAgent(s, agent).value;
    var rs, key := s.proposals[r].reviews, Lower(s.agents[k].name);
    ReviewsIsPick(rs, key, NotByPlaces(rs, key));
    assert Reviews(s, r, s.agents[k].name, ballot, Service.RecordAgentReview(s, ref, agent, ballot).state);
  }

  lemma SettleIs(s: FundState, actor: string, ref: Ref, pnl: int, now: Time)
    requires Service.RecordSettle(s, actor, ref, pnl, now).Done?
    ensures SettleEffect(s, ref, pnl, now, Service.RecordSettle(s, actor, ref, pnl, now).state)
  {
    FindsProposal(s, ref);
    CoolsIs(s.fund, now);
    var r := ProposalIndex(s.proposals, ref).value;
    assert Settles(s, r, pnl, now, Service.RecordSettle(s, actor, ref, pnl, now).state);
  }

  // ----- all actions

  ghost predicate Effect(s: FundState, a: Action, now: Time, t: FundState) {
    match a
    case RequestMembership(telegramId, address) => MembershipEffect(s, telegramId, address, t)
    case ApproveMember(_, who, address, _) => ApprovalEffect(s, who, address, t)
    case RequestAgent(name, identityId, address) => ApplicationEffect(s, name, identityId, address, t)
    case ApproveAgent(_, name, landed, _) => AgentApprovalEffect(s, name, landed, t)
    case RemoveAgent(_, name, _) => RemovalEffect(s, name, t)
    case ClaimTopic(agent, topic) => ClaimEffect(s, agent, topic, now, t)
    case ReleaseClaim(agent, topic) => ReleaseEffect(s, agent, topic, now, t)
    case RequestDraft(agent, ideaBy, topic) => RequestEffect(s, agent, ideaBy, topic, now, t)
    case DraftProposal(agent, b) => DraftEffect(s, agent, b, now, t)
    case ShipDraft(ref, _) => ShipEffect(s, ref, now, t)
    case SetStatus(_, ref, target, onchainId) => StatusEffect(s, ref, target, onchainId, now, t)
    case SetChainState(ref, x) => ReadingEffect(s, ref, x, t)
    case ApplyFundCard(c) => CardEffect(s, c, t)
    case ApplyChainStatus(id, state) => RowEffect(s, id, state, now, t)
    case RecordMemberVote(ref, voter, ballot) => BallotEffect(s, ref, voter, ballot, t)
    case RecordAgentReview(ref, agent, ballot) => ReviewEffect(s, ref, agent, ballot, t)
    case RecordSettle(_, ref, pnl) => SettleEffect(s, ref, pnl, now, t)
    case Configure(x) => SettingsEffect(s, x, t)
  }

  lemma PeopleEffect(s: FundState, a: Action, now: Time)
    requires a.RequestMembership? || a.ApproveMember? || a.RequestAgent? || a.ApproveAgent? || a.RemoveAgent?
    ensures Apply(s, a, now).Done? ==> Effect(s, a, now, Apply(s, a, now).state)
  {
    if Apply(s, a, now).Done? {
      match a {
        case RequestMembership(telegramId, address) => MembershipIs(s, telegramId, address);
        case ApproveMember(actor, who, address, caller) => ApprovalIs(s, actor, who, address, caller);
        case RequestAgent(name, identityId, address) => ApplicationIs(s, name, identityId, address);
        case ApproveAgent(actor, name, landed, caller) => AgentApprovalIs(s, actor, name, landed, caller);
        case RemoveAgent(actor, name, caller) => RemovalIs(s, actor, name, caller);
      }
    }
  }

  lemma IdeasEffect(s: FundState, a: Action, now: Time)
    requires a.ClaimTopic? || a.ReleaseClaim? || a.RequestDraft? || a.DraftProposal?
    ensures Apply(s, a, now).Done? ==> Effect(s, a, now, Apply(s, a, now).state)
  {
    if Apply(s, a, now).Done? {
      match a {
        case ClaimTopic(agent, topic) => ClaimIs(s, agent, topic, now);
        case ReleaseClaim(agent, topic) => ReleaseIs(s, agent, topic, now);
        case RequestDraft(agent, ideaBy, topic) => RequestIs(s, agent, ideaBy, topic, now);
        case DraftProposal(agent, b) => DraftIs(s, agent, b, now);
      }
    }
  }

  lemma MovesEffect(s: FundState, a: Action, now: Time)
    requires a.ShipDraft? || a.SetStatus? || a.SetChainState?
    ensures Apply(s, a, now).Done? ==> Effect(s, a, now, Apply(s, a, now).state)
  {
    if Apply(s, a, now).Done? {
      match a {
        case ShipDraft(ref, caller) => ShipIs(s, ref, caller, now);
        case SetStatus(actor, ref, target, onchainId) => StatusIs(s, actor, ref, target, onchainId, now);
        case SetChainState(ref, x) => ReadingIs(s, ref, x);
      }
    }
  }

  lemma FundEffect(s: FundState, a: Action, now: Time)
    requires a.ApplyFundCard? || a.ApplyChainStatus? || a.Configure?
    ensures Apply(s, a, now).Done? ==> Effect(s, a, now, Apply(s, a, now).state)
  {
    match a {
      case ApplyFundCard(c) => CardIs(s, c);
      case ApplyChainStatus(id, state) => RowIs(s, id, state, now);
      case Configure(x) => SettingsIs(s, x);
    }
  }

  lemma VotesEffect(s: FundState, a: Action, now: Time)
    requires a.RecordMemberVote? || a.RecordAgentReview? || a.RecordSettle?
    ensures Apply(s, a, now).Done? ==> Effect(s, a, now, Apply(s, a, now).state)
  {
    if Apply(s, a, now).Done? {
      match a {
        case RecordMemberVote(ref, voter, ballot) => BallotIs(s, ref, voter, ballot, now);
        case RecordAgentReview(ref, agent, ballot) => ReviewIs(s, ref, agent, ballot);
        case RecordSettle(actor, ref, pnl) => SettleIs(s, actor, ref, pnl, now);
      }
    }
  }

  /** What an action that goes through has done. */
  lemma EffectIs(s: FundState, a: Action, now: Time)
    ensures Apply(s, a, now).Done? ==> Effect(s, a, now, Apply(s, a, now).state)
  {
    if a.RequestMembership? || a.ApproveMember? || a.RequestAgent? || a.ApproveAgent? || a.RemoveAgent? {
      PeopleEffect(s, a, now);
    } else if a.ClaimTopic? || a.ReleaseClaim? || a.RequestDraft? || a.DraftProposal? {
      IdeasEffect(s, a, now);
    } else if a.RecordMemberVote? || a.RecordAgentReview? || a.RecordSettle? {
      VotesEffect(s, a, now);
    } else if a.ApplyFundCard? || a.ApplyChainStatus? || a.Configure? {
      FundEffect(s, a, now);
    } else {
      MovesEffect(s, a, now);
    }
  }

  // ----- the effect leaves no choice

  lemma SameCooling(f: Fund, now: Time, g: Fund, h: Fund)
    requires Cools(f, now, g) && Cools(f, now, h)
    ensures g == h
  {}

  lemma SamePeople(s: FundState, a: Action, now: Time, t: FundState, u: FundState)
    requires a.RequestMembership? || a.ApproveMember? || a.RequestAgent? || a.ApproveAgent?
    requires Effect(s, a, now, t) && Effect(s, a, now, u)
    ensures t == u
  {
    match a {
      case RequestMembership(telegramId, address) => KnownIs(s, telegramId, address);
      case ApproveMember(_, who, address, _) => KnownIs(s, who, address);
      case RequestAgent(name, _, _) => FindsAgent(s, name);
      case ApproveAgent(_, name, _, _) => FindsTarget(s, name);
    }
  }

  lemma SameRemoval(s: FundState, name: string, t: FundState, u: FundState)
    requires RemovalEffect(s, name, t) && RemovalEffect(s, name, u)
    ensures t == u
  {
    FindsTarget(s, name);
    assert t.proposals == u.proposals;
  }

  lemma SameClaim(s: FundState, agent: string, topic: string, now: Time, t: FundState, u: FundState)
    requires ClaimEffect(s, agent, topic, now, t) && ClaimEffect(s, agent, topic, now, u)
    ensures t == u
  {
    FindsAgent(s, agent);
    OwnOnce(s.claims, Lower(agent), now);
  }

  lemma OwnOnce(claims: seq<Claim>, key: string, now: Time)
    ensures forall i: nat, j: nat :: FirstOwn(claims, key, now, i) && FirstOwn(claims, key, now, j) ==> i == j
  {
    forall i: nat, j: nat | FirstOwn(claims, key, now, i) && FirstOwn(claims, key, now, j)
      ensures i == j
    {
      OwnNotBefore(claims, key, now, i, j);
      OwnNotBefore(claims, key, now, j, i);
    }
  }

  lemma OwnNotBefore(claims: seq<Claim>, key: string, now: Time, i: nat, j: nat)
    requires FirstOwn(claims, key, now, i) && FirstOwn(claims, key, now, j)
    ensures i <= j
  {}

  lemma SameRequest(s: FundState, agent: string, ideaBy: string, topic: string, now: Time, t: FundState, u: FundState)
    requires RequestEffect(s, agent, ideaBy, topic, now, t) && RequestEffect(s, agent, ideaBy, topic, now, u)
    ensures t == u
  {
    FindsAgent(s, agent);
  }

  lemma SameDraft(s: FundState, agent: string, b: Brief, now: Time, t: FundState, u: FundState)
    requires DraftEffect(s, agent, b, now, t) && DraftEffect(s, agent, b, now, u)
    ensures t == u
  {
    FindsAgent(s, agent);
    OwnOnce(s.claims, Lower(agent), now);
    var n := |s.proposals|;
    assert t.proposals == t.proposals[..n] + [t.proposals[n]];
    assert u.proposals == u.proposals[..n] + [u.proposals[n]];
  }

  lemma SameStatus(s: FundState, ref: Ref, target: Option<Status>, onchainId: Option<int>, now: Time, t: FundState, u: FundState)
    requires StatusEffect(s, ref, target, onchainId, now, t) && StatusEffect(s, ref, target, onchainId, now, u)
    ensures t == u
  {
    FindsProposal(s, ref);
    if target == Some(Vetoed) {
      SameCooling(s.fund, now, t.fund, u.fund);
    }
  }

  lemma SameReading(s: FundState, ref: Ref, x: Service.Reading, t: FundState, u: FundState)
    requires ReadingEffect(s, ref, x, t) && ReadingEffect(s, ref, x, u)
    ensures t == u
  {
    FindsProposal(s, ref);
  }

  lemma SameRow(s: FundState, id: nat, state: Service.ChainState, now: Time, t: FundState, u: FundState)
    requires RowEffect(s, id, state, now, t) && RowEffect(s, id, state, now, u)
    ensures t == u
  {
    FindsProposal(s, Local(id));
    if state.Rejected? && t != s && u != s {
      SameCooling(s.fund, now, t.fund, u.fund);
    }
  }

  lemma SameShip(s: FundState, ref: Ref, now: Time, t: FundState, u: FundState)
    requires ShipEffect(s, ref, now, t) && ShipEffect(s, ref, now, u)
    ensures t == u
  {
    FindsProposal(s, ref);
  }

  lemma SameBallot(s: FundState, ref: Ref, voter: string, ballot: Service.Ballot, t: FundState, u: FundState)
    requires BallotEffect(s, ref, voter, ballot, t) && BallotEffect(s, ref, voter, ballot, u)
    ensures t == u
  {
    FindsProposal(s, ref);
    FindsMember(s, voter);
  }

  lemma SameReview(s: FundState, ref: Ref, agent: string, ballot: Service.Ballot, t: FundState, u: FundState)
    requires ReviewEffect(s, ref, agent, ballot, t) && ReviewEffect(s, ref, agent, ballot, u)
    ensures t == u
  {
    FindsProposal(s, ref);
    FindsAgent(s, agent);
  }

  lemma SameSettlement(s: FundState, ref: Ref, pnl: int, now: Time, t: FundState, u: FundState)
    requires SettleEffect(s, ref, pnl, now, t) && SettleEffect(s, ref, pnl, now, u)
    ensures t == u
  {
    FindsProposal(s, ref);
    SameCooling(s.fund, now, t.fund, u.fund);
    var n := |s.receipts|;
    assert t.receipts == t.receipts[..n] + [t.receipts[n]];
    assert u.receipts == u.receipts[..n] + [u.receipts[n]];
  }

  lemma SameRecord(s: FundState, a: Action, now: Time, t: FundState, u: FundState)
    requires a.ReleaseClaim? || a.ApplyFundCard? || a.Configure?
    requires Effect(s, a, now, t) && Effect(s, a, now, u)
    ensures t == u
  {
    match a {
      case ReleaseClaim(_, _) =>
      case ApplyFundCard(_) =>
      case Configure(_) =>
    }
  }

  /** The effect says everything about the state after the action. */
  lemma EffectDetermines(s: FundState, a: Action, now: Time, t: FundState, u: FundState)
    requires Effect(s, a, now, t) && Effect(s, a, now, u)
    ensures t == u
  {
    match a {
      case RemoveAgent(_, name, _) => SameRemoval(s, name, t, u);
      case ClaimTopic(agent, topic) => SameClaim(s, agent, topic, now, t, u);
      case RequestDraft(agent, ideaBy, topic) => SameRequest(s, agent, ideaBy, topic, now, t, u);
      case DraftProposal(agent, b) => SameDraft(s, agent, b, now, t, u);
      case SetStatus(_, ref, target, onchainId) => SameStatus(s, ref, target, onchainId, now, t, u);
      case SetChainState(ref, x) => SameReading(s, ref, x, t, u);
      case ApplyChainStatus(id, state) => SameRow(s, id, state, now, t, u);
      case RecordSettle(_, ref, pnl) => SameSettlement(s, ref, pnl, now, t, u);
      case RecordMemberVote(ref, voter, ballot) => SameBallot(s, ref, voter, ballot, t, u);
      case RecordAgentReview(ref, agent, ballot) => SameReview(s, ref, agent, ballot, t, u);
      case ShipDraft(ref, _) => SameShip(s, ref, now, t, u);
      case ReleaseClaim(_, _) => SameRecord(s, a, now, t, u);
      case ApplyFundCard(_) => SameRecord(s, a, now, t, u);
      case Configure(_) => SameRecord(s, a, now, t, u);
      case _ => SamePeople(s, a, now, t, u);
    }
  }

  /** The service is its terms and effects, no more and no less: a step from s to t is an action that the records accept, with
      just that effect. */
  lemma StepIff(s: FundState, a: Action, now: Time, t: FundState)
    ensures Apply(s, a, now) == Done(t) <==> Accepts(s, a, now) && Effect(s, a, now, t)
  {
    AcceptedIff(s, a, now);
    EffectIs(s, a, now);
    if Accepts(s, a, now) && Effect(s, a, now, t) {
      EffectDetermines(s, a, now, t, Apply(s, a, now).state);
    }
  }

  /** A new fund has its host, registered and active, and nothing else; ids and member numbers start at 1. */
  lemma FreshFund(s: FundState)
    requires Fresh(s)
    ensures IsHost(s, s.agents[0].name) && Active(s, s.agents[0].name) && s.agents[0].approved && |s.agents| == 1
    ensures s.members == [] && s.claims == [] && s.proposals == [] && s.receipts == [] && s.nextProposalSeq == 1 && s.nextMemberNo == 1
  {
    StripTrimmed(s.agents[0].name);
    assert NamesAgent(s, s.agents[0].name, 0);
  }
}
