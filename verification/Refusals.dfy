/** For every action that is refused, with which code: the first of its terms that the records do not meet, in the order in
    which the rules are asked. */
module Refusals {
  import opened Text
  import opened Numerals
  import opened Legs
  import opened Topics
  import opened FundModel
  import opened Rules
  import opened Protocol
  import opened Terms
  import opened Acceptance
  import Payload
  import Service

  /** The code of the first stop, or else of the second. */
  function First(a: Option<Code>, b: Option<Code>): Option<Code> {
    if a.Some? then a else b
  }

  function If(stop: bool, code: Code): Option<Code> {
    if stop then Some(code) else None
  }

  predicate Says(v: Verdict, stop: Option<Code>) {
    v == if stop.None? then Allow else Deny(stop.value)
  }

  predicate Ends(o: Outcome, stop: Option<Code>) {
    if stop.None? then o.Done? else o == Refused(stop.value)
  }

  // ----- who and when

  ghost function AgentStop(s: FundState, name: string): Option<Code> {
    First(If(NoAgentNamed(s, name), UnknownAgent),
    First(If(exists i: nat :: NamesAgent(s, name, i) && s.agents[i].removed, AgentRemoved),
          If(exists i: nat :: NamesAgent(s, name, i) && !s.agents[i].registered, AgentNotRegistered)))
  }

  lemma AgentSays(s: FundState, name: string)
    ensures Says(CheckAgentCanAct(s, name), AgentStop(s, name))
  {
    FindsAgent(s, name);
  }

  ghost function HostStop(s: FundState, name: string): Option<Code> {
    If(!IsHost(s, name), NotHost)
  }

  lemma HostSays(s: FundState, name: string)
    ensures Says(CheckHostAction(s, name), HostStop(s, name))
  {
    ActsIff(s, name);
  }

  function CallerStop(s: FundState, caller: Option<string>): Option<Code> {
    if caller.None? then None
    else if s.fund.hostTelegramId == "" then Some(HostUnset)
    else If(caller.value != s.fund.hostTelegramId, NotHost)
  }

  lemma CallerSays(s: FundState, caller: Option<string>)
    ensures Says(CheckCallerIsHost(s, caller), CallerStop(s, caller))
  {}

  function FundStop(f: Fund, now: Time): Option<Code> {
    First(If(!IsUsdg(f.asset), AssetNotUsdPegged),
    First(If(f.agentFeeBps.None?, AgentFeeUnknown),
    First(If(f.agentFeeBps.Some? && f.agentFeeBps.value < 0, BadAgentFee),
    First(If(f.agentFeeBps.Some? && f.agentFeeBps.value > 1500, AgentFeeTooHigh),
          If(Cooling(f, now), Cooldown)))))
  }

  lemma FundSays(f: Fund, now: Time)
    ensures Says(FundGates(f, now), FundStop(f, now))
  {
    UsdgIff(f.asset);
  }

  // ----- claims and drafts

  /** Somebody else comes first on the topic. */
  ghost predicate TakenByOther(claims: seq<Claim>, key: string, topicKey: string, now: Time) {
    exists i: nat :: FirstOn(claims, topicKey, now, i) && Lower(claims[i].agent) != key
  }

  /** The agent's claim is on another topic. */
  ghost predicate OnOtherTopic(claims: seq<Claim>, key: string, topicKey: string, now: Time) {
    exists i: nat :: FirstOwn(claims, key, now, i) && Normalize(claims[i].topic) != topicKey
  }

  ghost predicate HasNone(claims: seq<Claim>, key: string, now: Time) {
    forall i: nat :: !FirstOwn(claims, key, now, i)
  }

  lemma ClaimsAre(claims: seq<Claim>, key: string, topic: string, now: Time)
    ensures var c := ClaimForTopic(ActiveClaims(claims, now), Normalize(topic), now);
            TakenByOther(claims, key, Normalize(Normalize(topic)), now) <==> c.Some? && Lower(c.value.agent) != key
    ensures var c := ClaimOf(ActiveClaims(claims, now), key, now);
            && (OnOtherTopic(claims, key, Normalize(topic), now) <==> c.Some? && Normalize(c.value.topic) != Normalize(topic))
            && (HasNone(claims, key, now) <==> c.None?)
  {
    OnIff(claims, Normalize(topic), now);
    OwnIff(claims, key, now);
  }

  ghost function ClaimStop(s: FundState, agent: string, topic: string, now: Time): Option<Code> {
    First(AgentStop(s, agent),
    First(FundStop(s.fund, now),
    First(If(Normalize(topic) == "", BadTopic),
    First(If(HasOpen(s.proposals, Lower(agent)), AgentHasOpenProposal),
    First(If(TakenByOther(s.claims, Lower(agent), Normalize(Normalize(topic)), now), TopicClaimed),
    First(If(OnOtherTopic(s.claims, Lower(agent), Normalize(topic), now), AgentHasClaim),
          If(HasNone(s.claims, Lower(agent), now)
             && |OpenPlaces(s.proposals)| + |OthersPlaces(s.claims, Lower(agent), now)| >= 2, FundFull)))))))
  }

  /** The order in which the claim rules are asked. */
  lemma ClaimOrder(s: FundState, agent: string, topic: string, now: Time,
                   actor: Option<Code>, fund: Option<Code>, open: bool, taken: bool, elsewhere: bool, full: bool)
    requires Says(CheckAgentCanAct(s, agent), actor) && Says(FundGates(s.fund, now), fund)
    requires open <==> OpenCountOf(s.proposals, Lower(agent)) != 0
    requires var c := ClaimForTopic(s.claims, Normalize(topic), now); taken <==> c.Some? && Lower(c.value.agent) != Lower(agent)
    requires var c := ClaimOf(s.claims, Lower(agent), now);
             && (elsewhere <==> c.Some? && Normalize(c.value.topic) != Normalize(topic))
             && (full <==> c.None? && OpenCount(s.proposals) + |Select(ActiveClaims(s.claims, now), NotOf(Lower(agent)))| >= 2)
    ensures Says(CheckClaim(s, agent, topic, now),
                 First(actor, First(fund, First(If(Normalize(topic) == "", BadTopic), First(If(open, AgentHasOpenProposal),
                 First(If(taken, TopicClaimed), First(If(elsewhere, AgentHasClaim), If(full, FundFull))))))))
  {}

  lemma ClaimSays(s: FundState, agent: string, topic: string, now: Time)
    ensures Says(CheckClaim(s.(claims := ActiveClaims(s.claims, now)), agent, topic, now), ClaimStop(s, agent, topic, now))
  {
    var live := s.(claims := ActiveClaims(s.claims, now));
    var key := Lower(agent);
    AgentSays(live, agent);
    SameAgentStop(s, live, agent);
    FundSays(s.fund, now);
    HasOpenIff(s.proposals, key);
    ClaimsAre(s.claims, key, topic, now);
    AllClaimsLive(s.claims, now);
    OpenPlacesCount(s.proposals);
    OthersPlacesCount(s.claims, key, now);
    ClaimOrder(live, agent, topic, now, AgentStop(s, agent), FundStop(s.fund, now), HasOpen(s.proposals, key),
               TakenByOther(s.claims, key, Normalize(Normalize(topic)), now), OnOtherTopic(s.claims, key, Normalize(topic), now),
               HasNone(s.claims, key, now) && |OpenPlaces(s.proposals)| + |OthersPlaces(s.claims, key, now)| >= 2);
  }

  lemma SameAgentStop(s: FundState, t: FundState, name: string)
    requires s.agents == t.agents
    ensures AgentStop(s, name) == AgentStop(t, name)
  {
    assert forall i: nat :: NamesAgent(s, name, i) <==> NamesAgent(t, name, i);
  }

  function EnvelopeStop(f: Fund, maxCapital: int, maxDrawdownBps: int): Option<Code> {
    First(If(maxCapital <= 0, BadCapital),
    First(If(f.maxCapital.Some? && maxCapital > f.maxCapital.value, ExceedsMaxCapital),
    First(If(maxDrawdownBps < 0 || maxDrawdownBps > 10000, BadDrawdown),
          If(f.maxDrawdownBps.Some? && maxDrawdownBps > f.maxDrawdownBps.value, ExceedsMaxDrawdown))))
  }

  /** A leg that asks for an unlimited approval, stated or in its call data. */
  predicate AsksUnlimited(leg: Leg) {
    || (leg.kind == "approve" && leg.amount != "" && UnlimitedText(leg.amount))
    || (IsAddress(leg.target) && IsHexData(leg.data)
        && Payload.Approves(leg.data).Some? && Payload.Approves(leg.data).value >= UNLIMITED)
  }

  /** What is wrong with a leg that does not meet its terms: an unlimited approval, unless its phase is not known. */
  lemma LegFaultIs(leg: Leg)
    requires !LegTerms(leg)
    ensures LegFaultOf(leg) == Some(if leg.phase in {"execute", "settle"} && AsksUnlimited(leg) then UnlimitedApprove else BadLeg)
  {
    LegIff(leg);
    if IsHexData(leg.data) {
      if Payload.Approves(leg.data).Some? {
        Payload.ApproveSeen(leg.data);
      } else {
        NoApproveIsZero(leg.data);
      }
    }
    EmptyIsNoAddress();
  }

  /** The first leg, in order, that does not meet its terms. */
  predicate FirstBad(legs: seq<Leg>, i: nat) {
    i < |legs| && !LegTerms(legs[i]) && forall j :: 0 <= j < i ==> LegTerms(legs[j])
  }

  lemma {:induction false} FirstFaultIs(legs: seq<Leg>, i: nat)
    requires FirstBad(legs, i)
    ensures FirstFault(legs) == LegFaultOf(legs[i])
  {
    LegIff(legs[0]);
    if i == 0 {
      LegFaultIs(legs[0]);
    } else {
      FirstFaultIs(legs[1..], i - 1);
    }
  }

  /** check_legs says: no legs, or what is wrong with the first bad one, or that a phase's caps exceed the capital. */
  lemma LegsSay(legs: seq<Leg>, maxCapital: int)
    ensures LegsFault(legs, maxCapital) == Some(NoLegs) <==> legs == []
    ensures forall i: nat :: FirstBad(legs, i) ==> LegsFault(legs, maxCapital) == LegFaultOf(legs[i])
    ensures (forall i :: 0 <= i < |legs| ==> LegTerms(legs[i])) && legs != [] ==>
              LegsFault(legs, maxCapital)
              == if CapSum(legs, "execute") > maxCapital || CapSum(legs, "settle") > maxCapital then Some(CapsExceedCapital) else None
  {
    forall i: nat | FirstBad(legs, i)
      ensures FirstFault(legs) == LegFaultOf(legs[i]) && FirstFault(legs).Some?
    {
      FirstFaultIs(legs, i);
      LegFaultIs(legs[i]);
    }
    FirstFaultNone(legs);
    forall i | 0 <= i < |legs|
      ensures LegTerms(legs[i]) <==> LegFaultOf(legs[i]).None?
    {
      LegIff(legs[i]);
    }
    FaultsAreOfLegs(legs);
  }

  lemma {:induction false} FaultsAreOfLegs(legs: seq<Leg>)
    ensures FirstFault(legs) in {None, Some(BadLeg), Some(UnlimitedApprove)}
  {
    if legs != [] {
      FaultsAreOfLegs(legs[1..]);
    }
  }

  /** The order of a draft's rules, for its holder and for everybody else. */
  ghost function DraftStop(s: FundState, agent: string, b: Brief, now: Time): Option<Code> {
    First(If(Strip(b.thesis) == "", NoThesis),
    First(AgentStop(s, agent),
    First(FundStop(s.fund, now),
    First(If(HasOpen(s.proposals, Lower(agent)), AgentHasOpenProposal),
    First(If(|OpenPlaces(s.proposals)| >= 2, FundFull),
    First(If(HasNone(s.claims, Lower(agent), now), NoClaim),
    First(If(OnOtherTopic(s.claims, Lower(agent), Normalize(b.topic), now), ClaimMismatch),
    First(EnvelopeStop(s.fund, b.maxCapital, b.maxDrawdownBps), LegsStop(b.legs, b.maxCapital)))))))))
  }

  /** No legs, or the first leg that does not meet its terms, or the caps of a phase. */
  ghost function LegsStop(legs: seq<Leg>, maxCapital: int): Option<Code> {
    First(If(legs == [], LegsRefused(NoLegs)),
    First(If(exists i: nat :: FirstBad(legs, i) && legs[i].phase in {"execute", "settle"} && AsksUnlimited(legs[i]),
             LegsRefused(UnlimitedApprove)),
    First(If(exists i :: 0 <= i < |legs| && !LegTerms(legs[i]), LegsRefused(BadLeg)),
          If(CapSum(legs, "execute") > maxCapital || CapSum(legs, "settle") > maxCapital, LegsRefused(CapsExceedCapital)))))
  }

  lemma {:induction false} BadIsFirst(legs: seq<Leg>, i: nat) returns (k: nat)
    requires i < |legs| && !LegTerms(legs[i])
    ensures FirstBad(legs, k)
  {
    k := i;
    if j :| 0 <= j < i && !LegTerms(legs[j]) {
      k := BadIsFirst(legs, j);
    }
  }

  lemma LegsVerdictSays(legs: seq<Leg>, maxCapital: int)
    ensures Says(CheckLegsVerdict(legs, maxCapital), LegsStop(legs, maxCapital))
  {
    LegsSay(legs, maxCapital);
    if i :| 0 <= i < |legs| && !LegTerms(legs[i]) {
      var k := BadIsFirst(legs, i);
      LegFaultIs(legs[k]);
    }
  }

  lemma EnvelopeSays(f: Fund, maxCapital: int, maxDrawdownBps: int)
    ensures Says(CheckEnvelope(f, maxCapital, maxDrawdownBps), EnvelopeStop(f, maxCapital, maxDrawdownBps))
  {}

  /** The order in which the draft rules are asked. */
  lemma DraftOrder(s: FundState, agent: string, b: Brief, now: Time, actor: Option<Code>, fund: Option<Code>, open: bool, full: bool,
                   none: bool, other: bool, envelope: Option<Code>, legs: Option<Code>)
    requires Says(CheckAgentCanAct(s, agent), actor) && Says(FundGates(s.fund, now), fund)
    requires open <==> OpenCountOf(s.proposals, Lower(agent)) != 0
    requires full <==> OpenCount(s.proposals) >= 2
    requires var c := ClaimOf(s.claims, Lower(agent), now);
             (none <==> c.None?) && (other <==> c.Some? && Normalize(c.value.topic) != Normalize(b.topic))
    requires Says(CheckEnvelope(s.fund, b.maxCapital, b.maxDrawdownBps), envelope)
    requires Says(CheckLegsVerdict(b.legs, b.maxCapital), legs)
    ensures Says(CheckDraft(s, agent, b, now),
                 First(actor, First(fund, First(If(open, AgentHasOpenProposal), First(If(full, FundFull), First(If(none, NoClaim),
                 First(If(other, ClaimMismatch), First(envelope, legs))))))))
  {}

  lemma DraftSays(s: FundState, agent: string, b: Brief, now: Time)
    ensures Ends(Service.DraftProposal(s, agent, b, now), DraftStop(s, agent, b, now))
  {
    var live := s.(claims := ActiveClaims(s.claims, now));
    var key := Lower(agent);
    AgentSays(live, agent);
    SameAgentStop(s, live, agent);
    FundSays(s.fund, now);
    HasOpenIff(s.proposals, key);
    ClaimsAre(s.claims, key, b.topic, now);
    OpenPlacesCount(s.proposals);
    EnvelopeSays(s.fund, b.maxCapital, b.maxDrawdownBps);
    LegsVerdictSays(b.legs, b.maxCapital);
    DraftOrder(live, agent, b, now, AgentStop(s, agent), FundStop(s.fund, now), HasOpen(s.proposals, key), |OpenPlaces(s.proposals)| >= 2,
               HasNone(s.claims, key, now), OnOtherTopic(s.claims, key, Normalize(b.topic), now),
               EnvelopeStop(s.fund, b.maxCapital, b.maxDrawdownBps), LegsStop(b.legs, b.maxCapital));
    DraftChecked(s, agent, b, now, CheckDraft(live, agent, b, now));
  }

  lemma DraftChecked(s: FundState, agent: string, b: Brief, now: Time, v: Verdict)
    requires v == CheckDraft(s.(claims := ActiveClaims(s.claims, now)), agent, b, now)
    ensures var o := Service.DraftProposal(s, agent, b, now);
            if Strip(b.thesis) == "" then o == Refused(NoThesis) else if v.Deny? then o == Refused(v.code) else o.Done?
  {}

  lemma ClaimTopicSays(s: FundState, agent: string, topic: string, now: Time)
    ensures Ends(Service.ClaimTopic(s, agent, topic, now), ClaimStop(s, agent, topic, now))
  {
    ClaimSays(s, agent, topic, now);
  }

  lemma RequestDraftSays(s: FundState, agent: string, ideaBy: string, topic: string, now: Time)
    ensures Ends(Service.RequestDraft(s, agent, ideaBy, topic, now), ClaimStop(s, agent, Strip(topic), now))
  {
    ClaimSays(s, agent, Strip(topic), now);
  }

  // ----- members and agents

  ghost function ApprovalStop(s: FundState, actor: string, who: string, address: string, caller: Option<string>): Option<Code> {
    First(CallerStop(s, caller),
    First(HostStop(s, actor),
    First(If(NobodyKnown(s, who, address) && !IsAddress(who) && address == "", UnknownMember),
    First(If(exists i: nat :: KnownAs(s, who, address, i) && s.members[i].approved, AlreadyApproved),
          If(!ApprovalTerms(s, actor, who, address, caller), MissingAddress)))))
  }

  lemma ApprovalSays(s: FundState, actor: string, who: string, address: string, caller: Option<string>)
    ensures Ends(Service.ApproveMember(s, actor, who, address, caller), ApprovalStop(s, actor, who, address, caller))
  {
    KnownIs(s, who, address);
    CallerSays(s, caller);
    CallerIff(s, caller);
    HostSays(s, actor);
    EmptyIsNoAddress();
  }

  ghost function ApplicationStop(s: FundState, name: string, identityId: string, address: string): Option<Code> {
    First(If(identityId == "" || !IsAddress(address), MissingIdentity),
    First(If(exists i: nat :: HasAddress(s, address, i) && !s.agents[i].removed && Lower(s.agents[i].name) != Lower(name), AddressTaken),
          If(exists i: nat :: NamesAgent(s, name, i) && !s.agents[i].removed && s.agents[i].registered, AlreadyRegistered)))
  }

  lemma ApplicationSays(s: FundState, name: string, identityId: string, address: string)
    ensures Ends(Service.RequestAgent(s, name, identityId, address), ApplicationStop(s, name, identityId, address))
  {
    FindsAgent(s, name);
    FindsByAddress(s, address);
  }

  ghost function AgentApprovalStop(s: FundState, actor: string, name: string, caller: Option<string>): Option<Code> {
    First(CallerStop(s, caller),
    First(HostStop(s, actor),
    First(If(forall i: nat :: !MeansAgent(s, name, i), UnknownAgent),
    First(If(exists i: nat :: MeansAgent(s, name, i) && s.agents[i].removed, AgentRemoved),
    First(If(exists i: nat :: MeansAgent(s, name, i) && (s.agents[i].identityId == "" || !IsAddress(s.agents[i].address)), MissingIdentity),
          If(exists i: nat :: MeansAgent(s, name, i) && s.agents[i].registered, AlreadyRegistered))))))
  }

  /** The order in which the rules for an agent's approval are asked. */
  lemma AgentApprovalOrder(s: FundState, actor: string, name: string, landed: bool, caller: Option<string>,
                           sender: Option<Code>, host: Option<Code>, r: Option<nat>)
    requires Says(CheckCallerIsHost(s, caller), sender) && Says(CheckHostAction(s, actor), host) && r == FindTarget(s, name)
    ensures Ends(Service.ApproveAgent(s, actor, name, landed, caller),
                 First(sender, First(host, First(If(r.None?, UnknownAgent), First(If(r.Some? && s.agents[r.value].removed, AgentRemoved),
                 First(If(r.Some? && (s.agents[r.value].identityId == "" || !IsAddress(s.agents[r.value].address)), MissingIdentity),
                       If(r.Some? && s.agents[r.value].registered, AlreadyRegistered)))))))
  {}

  lemma AgentApprovalSays(s: FundState, actor: string, name: string, landed: bool, caller: Option<string>)
    ensures Ends(Service.ApproveAgent(s, actor, name, landed, caller), AgentApprovalStop(s, actor, name, caller))
  {
    FindsTarget(s, name);
    CallerSays(s, caller);
    HostSays(s, actor);
    AgentApprovalOrder(s, actor, name, landed, caller, CallerStop(s, caller), HostStop(s, actor), FindTarget(s, name));
  }

  ghost function RemovalStop(s: FundState, actor: string, name: string, caller: Option<string>): Option<Code> {
    First(CallerStop(s, caller),
    First(HostStop(s, actor),
    First(If(forall i: nat :: !MeansAgent(s, name, i), UnknownAgent),
    First(If(exists i: nat :: MeansAgent(s, name, i) && s.agents[i].removed, AgentRemoved),
          If(exists i: nat :: MeansAgent(s, name, i) && s.agents[i].role == Host, CannotRemoveHost)))))
  }

  lemma RemovalSays(s: FundState, actor: string, name: string, caller: Option<string>)
    ensures Ends(Service.RemoveAgent(s, actor, name, caller), RemovalStop(s, actor, name, caller))
  {
    FindsTarget(s, name);
    CallerSays(s, caller);
    HostSays(s, actor);
  }

  // ----- proposals and votes

  ghost function NamedStop(s: FundState, ref: Ref): Option<Code> {
    If(forall r: nat :: !NamesProposal(s, ref, r), UnknownProposal)
  }

  ghost function ShipStop(s: FundState, ref: Ref, caller: Option<string>, now: Time): Option<Code> {
    First(CallerStop(s, caller),
    First(NamedStop(s, ref),
    First(If(exists r: nat :: NamesProposal(s, ref, r) && s.proposals[r].status != Draft, NotDraft),
    First(If(exists r: nat :: NamesProposal(s, ref, r) && (s.proposals[r].legs == [] || s.proposals[r].maxCapital <= 0), DraftNotReady),
          If(Cooling(s.fund, now), Cooldown)))))
  }

  lemma ShipSays(s: FundState, ref: Ref, caller: Option<string>, now: Time)
    ensures Ends(Service.ShipDraft(s, ref, caller, now), ShipStop(s, ref, caller, now))
  {
    FindsProposal(s, ref);
    CallerSays(s, caller);
  }

  /** Who may not steer the proposal, and why. */
  ghost function SteerStop(s: FundState, actor: string, p: Proposal): Option<Code> {
    if Lower(actor) == Lower(p.proposer) then AgentStop(s, actor) else HostStop(s, actor)
  }

  ghost function StatusStop(s: FundState, actor: string, r: nat, target: Option<Status>, now: Time): Option<Code>
    requires r < |s.proposals|
  {
    First(SteerStop(s, actor, s.proposals[r]),
    First(If(target.None? || !LeadsTo(s.proposals[r].status, target.value), BadTransition),
          If(target == Some(Proposed) && Cooling(s.fund, now), Cooldown)))
  }

  lemma StatusSays(s: FundState, actor: string, ref: Ref, target: Option<Status>, onchainId: Option<int>, now: Time)
    ensures forall r: nat :: NamesProposal(s, ref, r) ==>
              Ends(Service.SetStatus(s, actor, ref, target, onchainId, now), StatusStop(s, actor, r, target, now))
    ensures (forall r: nat :: !NamesProposal(s, ref, r)) ==>
              Service.SetStatus(s, actor, ref, target, onchainId, now) == Refused(UnknownProposal)
  {
    FindsProposal(s, ref);
    AgentSays(s, actor);
    HostSays(s, actor);
    var r := ProposalIndex(s.proposals, ref);
    if r.Some? && target.Some? {
      LeadsIff(s.proposals[r.value].status, target.value);
    }
  }

  lemma SettleSays(s: FundState, actor: string, ref: Ref, pnl: int, now: Time)
    ensures forall r: nat :: NamesProposal(s, ref, r) ==>
              Ends(Service.RecordSettle(s, actor, ref, pnl, now),
                   First(SteerStop(s, actor, s.proposals[r]), If(s.proposals[r].status != Executed, BadTransition)))
    ensures (forall r: nat :: !NamesProposal(s, ref, r)) ==>
              Service.RecordSettle(s, actor, ref, pnl, now) == Refused(UnknownProposal)
  {
    FindsProposal(s, ref);
    AgentSays(s, actor);
    HostSays(s, actor);
    var r := ProposalIndex(s.proposals, ref);
    if r.Some? {
      LeadsIff(s.proposals[r.value].status, Settled);
    }
  }

  ghost function BallotStop(s: FundState, ref: Ref, voter: string, ballot: Service.Ballot, now: Time): Option<Code> {
    First(If(ballot.Junk?, BadSide),
    First(If(!exists i: nat :: NamesMember(s, voter, i) && s.members[i].approved, NotMember),
    First(NamedStop(s, ref), If(!BallotTerms(s, ref, voter, ballot, now), VotingClosed))))
  }

  lemma BallotSays(s: FundState, ref: Ref, voter: string, ballot: Service.Ballot, now: Time)
    ensures Ends(Service.RecordMemberVote(s, ref, voter, ballot, now), BallotStop(s, ref, voter, ballot, now))
  {
    FindsProposal(s, ref);
    FindsMember(s, voter);
  }

  ghost function ReviewStop(s: FundState, ref: Ref, agent: string, ballot: Service.Ballot): Option<Code> {
    First(If(!ballot.Cast?, BadSide),
    First(AgentStop(s, agent),
    First(NamedStop(s, ref),
    First(If(exists r: nat :: NamesProposal(s, ref, r) && Lower(s.proposals[r].proposer) == Lower(agent), OwnProposal),
          If(!ReviewTerms(s, ref, agent, ballot), NotReviewable)))))
  }

  lemma ReviewSays(s: FundState, ref: Ref, agent: string, ballot: Service.Ballot)
    ensures Ends(Service.RecordAgentReview(s, ref, agent, ballot), ReviewStop(s, ref, agent, ballot))
  {
    FindsProposal(s, ref);
    AgentSays(s, agent);
    ActsIff(s, agent);
  }

  // ----- all actions

  ghost function SteeringStop(s: FundState, actor: string, ref: Ref, target: Option<Status>, now: Time): Option<Code> {
    if r: nat :| NamesProposal(s, ref, r) then StatusStop(s, actor, r, target, now) else Some(UnknownProposal)
  }

  ghost function SettleStop(s: FundState, actor: string, ref: Ref): Option<Code> {
    if r: nat :| NamesProposal(s, ref, r) then
      First(SteerStop(s, actor, s.proposals[r]), If(s.proposals[r].status != Executed, BadTransition))
    else Some(UnknownProposal)
  }

  /** Why the records refuse an action; None if they do not. */
  ghost function Stop(s: FundState, a: Action, now: Time): Option<Code> {
    match a
    case RequestMembership(telegramId, address) => If(!MembershipTerms(s, telegramId, address), MissingAddress)
    case ApproveMember(actor, who, address, caller) => ApprovalStop(s, actor, who, address, caller)
    case RequestAgent(name, identityId, address) => ApplicationStop(s, name, identityId, address)
    case ApproveAgent(actor, name, _, caller) => AgentApprovalStop(s, actor, name, caller)
    case RemoveAgent(actor, name, caller) => RemovalStop(s, actor, name, caller)
    case ClaimTopic(agent, topic) => ClaimStop(s, agent, topic, now)
    case RequestDraft(agent, _, topic) => ClaimStop(s, agent, Strip(topic), now)
    case DraftProposal(agent, b) => DraftStop(s, agent, b, now)
    case ShipDraft(ref, caller) => ShipStop(s, ref, caller, now)
    case SetStatus(actor, ref, target, _) => SteeringStop(s, actor, ref, target, now)
    case SetChainState(ref, _) => NamedStop(s, ref)
    case RecordMemberVote(ref, voter, ballot) => BallotStop(s, ref, voter, ballot, now)
    case RecordAgentReview(ref, agent, ballot) => ReviewStop(s, ref, agent, ballot)
    case RecordSettle(actor, ref, _) => SettleStop(s, actor, ref)
    case _ => None   // a release, a chain card or row, the operator's settings
  }

  lemma MembershipSays(s: FundState, telegramId: string, address: string)
    ensures Ends(Service.RequestMembership(s, telegramId, address), If(!MembershipTerms(s, telegramId, address), MissingAddress))
  {
    MembershipIff(s, telegramId, address);
  }

  lemma ReadingSays(s: FundState, ref: Ref, x: Service.Reading)
    ensures Ends(Service.SetChainState(s, ref, x), NamedStop(s, ref))
  {
    FindsProposal(s, ref);
  }

  lemma PeopleEnd(s: FundState, a: Action, now: Time)
    requires a.RequestMembership? || a.ApproveMember? || a.RequestAgent? || a.ApproveAgent? || a.RemoveAgent?
    ensures Ends(Apply(s, a, now), Stop(s, a, now))
  {
    match a {
      case RequestMembership(telegramId, address) => MembershipSays(s, telegramId, address);
      case ApproveMember(actor, who, address, caller) => ApprovalSays(s, actor, who, address, caller);
      case RequestAgent(name, identityId, address) => ApplicationSays(s, name, identityId, address);
      case ApproveAgent(actor, name, landed, caller) => AgentApprovalSays(s, actor, name, landed, caller);
      case RemoveAgent(actor, name, caller) => RemovalSays(s, actor, name, caller);
    }
  }

  lemma ClaimTopicEnds(s: FundState, agent: string, topic: string, now: Time)
    ensures Ends(Apply(s, ClaimTopic(agent, topic), now), Stop(s, ClaimTopic(agent, topic), now))
  {
    ClaimTopicSays(s, agent, topic, now);
    ClaimStops(s, ClaimTopic(agent, topic), now);
    SameEnd(s, ClaimTopic(agent, topic), now, Service.ClaimTopic(s, agent, topic, now), ClaimStop(s, agent, topic, now));
  }

  lemma ClaimStops(s: FundState, a: Action, now: Time)
    requires a.ClaimTopic?
    ensures Apply(s, a, now) == Service.ClaimTopic(s, a.agent, a.topic, now)
    ensures Stop(s, a, now) == ClaimStop(s, a.agent, a.topic, now)
  {}

  lemma RequestDraftEnds(s: FundState, agent: string, ideaBy: string, topic: string, now: Time)
    ensures Ends(Apply(s, RequestDraft(agent, ideaBy, topic), now), Stop(s, RequestDraft(agent, ideaBy, topic), now))
  {
    RequestDraftSays(s, agent, ideaBy, topic, now);
    RequestStops(s, RequestDraft(agent, ideaBy, topic), now);
    SameEnd(s, RequestDraft(agent, ideaBy, topic), now, Service.RequestDraft(s, agent, ideaBy, topic, now),
            ClaimStop(s, agent, Strip(topic), now));
  }

  lemma RequestStops(s: FundState, a: Action, now: Time)
    requires a.RequestDraft?
    ensures Apply(s, a, now) == Service.RequestDraft(s, a.agent, a.ideaBy, a.topic, now)
    ensures Stop(s, a, now) == ClaimStop(s, a.agent, Strip(a.topic), now)
  {}

  lemma DraftProposalEnds(s: FundState, agent: string, b: Brief, now: Time)
    ensures Ends(Apply(s, DraftProposal(agent, b), now), Stop(s, DraftProposal(agent, b), now))
  {
    DraftSays(s, agent, b, now);
    DraftApplies(s, DraftProposal(agent, b), now);
    DraftStops(s, DraftProposal(agent, b), now);
    SameEnd(s, DraftProposal(agent, b), now, Service.DraftProposal(s, agent, b, now), DraftStop(s, agent, b, now));
  }

  lemma DraftApplies(s: FundState, a: Action, now: Time)
    requires a.DraftProposal?
    ensures Apply(s, a, now) == Service.DraftProposal(s, a.agent, a.brief, now)
  {}

  lemma DraftStops(s: FundState, a: Action, now: Time)
    requires a.DraftProposal?
    ensures Stop(s, a, now) == DraftStop(s, a.agent, a.brief, now)
  {}

  lemma SameEnd(s: FundState, a: Action, now: Time, o: Outcome, stop: Option<Code>)
    requires Apply(s, a, now) == o && Stop(s, a, now) == stop && Ends(o, stop)
    ensures Ends(Apply(s, a, now), Stop(s, a, now))
  {}

  lemma StatusEnds(s: FundState, actor: string, ref: Ref, target: Option<Status>, onchainId: Option<int>, now: Time)
    ensures Ends(Service.SetStatus(s, actor, ref, target, onchainId, now), SteeringStop(s, actor, ref, target, now))
  {
    StatusSays(s, actor, ref, target, onchainId, now);
  }

  lemma SettleEnds(s: FundState, actor: string, ref: Ref, pnl: int, now: Time)
    ensures Ends(Service.RecordSettle(s, actor, ref, pnl, now), SettleStop(s, actor, ref))
  {
    SettleSays(s, actor, ref, pnl, now);
  }

  lemma SteeringEnds(s: FundState, a: Action, now: Time)
    requires a.SetStatus? || a.RecordSettle?
    ensures Ends(Apply(s, a, now), Stop(s, a, now))
  {
    match a {
      case SetStatus(actor, ref, target, onchainId) => StatusEnds(s, actor, ref, target, onchainId, now);
      case RecordSettle(actor, ref, pnl) => SettleEnds(s, actor, ref, pnl, now);
    }
  }

  lemma VotesEnd(s: FundState, a: Action, now: Time)
    requires a.RecordMemberVote? || a.RecordAgentReview?
    ensures Ends(Apply(s, a, now), Stop(s, a, now))
  {
    match a {
      case RecordMemberVote(ref, voter, ballot) => BallotSays(s, ref, voter, ballot, now);
      case RecordAgentReview(ref, agent, ballot) => ReviewSays(s, ref, agent, ballot);
    }
  }

  lemma MovesEnd(s: FundState, a: Action, now: Time)
    requires a.ShipDraft? || a.SetChainState?
    ensures Ends(Apply(s, a, now), Stop(s, a, now))
  {
    match a {
      case ShipDraft(ref, caller) => ShipSays(s, ref, caller, now);
      case SetChainState(ref, x) => ReadingSays(s, ref, x);
    }
  }

  lemma ActionEnds(s: FundState, a: Action, now: Time)
    ensures Ends(Apply(s, a, now), Stop(s, a, now))
  {
    match a {
      case ClaimTopic(agent, topic) => ClaimTopicEnds(s, agent, topic, now);
      case RequestDraft(agent, ideaBy, topic) => RequestDraftEnds(s, agent, ideaBy, topic, now);
      case DraftProposal(agent, b) => DraftProposalEnds(s, agent, b, now);
      case _ => OthersEnd(s, a, now);
    }
  }

  lemma OthersEnd(s: FundState, a: Action, now: Time)
    requires !a.ClaimTopic? && !a.RequestDraft? && !a.DraftProposal?
    ensures Ends(Apply(s, a, now), Stop(s, a, now))
  {
    if a.RequestMembership? || a.ApproveMember? || a.RequestAgent? || a.ApproveAgent? || a.RemoveAgent? {
      PeopleEnd(s, a, now);
    } else if a.ReleaseClaim? || a.ApplyFundCard? || a.ApplyChainStatus? || a.Configure? {
      FreeIff(s, a, now);
    } else if a.SetStatus? || a.RecordSettle? {
      SteeringEnds(s, a, now);
    } else if a.ShipDraft? || a.SetChainState? {
      MovesEnd(s, a, now);
    } else {
      VotesEnd(s, a, now);
    }
  }

  /** An action is refused with a code exactly when that is the first reason the records have against it. */
  lemma RefusedIff(s: FundState, a: Action, now: Time, code: Code)
    ensures Apply(s, a, now) == Refused(code) <==> Stop(s, a, now) == Some(code)
  {
    ActionEnds(s, a, now);
  }

  /** And the records have no reason exactly when they meet the terms. */
  lemma NoStopIff(s: FundState, a: Action, now: Time)
    ensures Stop(s, a, now).None? <==> Accepts(s, a, now)
  {
    ActionEnds(s, a, now);
    AcceptedIff(s, a, now);
  }
}
