/** The fund service itself: one object holding the stored state, one method per action, each a single update.
    A refused rule leaves every field alone; anything else bumps the revision. */
module Ledger {
  import opened Lists
  import opened Text
  import opened Numerals
  import opened FundModel
  import opened Rules
  import Service

  class FundLedger {
    var fund: Fund
    var members: seq<Member>
    var agents: seq<Agent>
    var claims: seq<Claim>
    var proposals: seq<Proposal>
    var receipts: seq<Receipt>
    var nextProposalSeq: nat
    var nextMemberNo: nat
    var revision: nat

    function View(): FundState
      reads this
    {
      FundState(fund, members, agents, claims, proposals, receipts, nextProposalSeq, nextMemberNo)
    }

    /** The call did what `o` says: it stored the new state, or refused and stored nothing. */
    twostate predicate Follows(o: Outcome, v: Verdict)
      reads this
    {
      match o
      case Done(t) => v == Allow && View() == t && revision == old(revision) + 1
      case Refused(code) => v == Deny(code) && View() == old(View()) && revision == old(revision)
    }

    /** `create_fund`. */
    constructor (f: Fund, name: string, identityId: string, address: string)
      ensures View() == Service.CreateFund(f, name, identityId, address) && revision == 1
    {
      fund := f;
      members := [];
      agents := [Agent(name, identityId, address, Host, true, true, false)];
      claims := [];
      proposals := [];
      receipts := [];
      nextProposalSeq := 1;
      nextMemberNo := 1;
      revision := 1;
    }

    // ----- members

    method RequestMembership(telegramId: string, address: string) returns (v: Verdict)
      modifies this
      ensures Follows(Service.RequestMembership(old(View()), telegramId, address), v)
    {
      var found := FindMember(View(), telegramId);
      if found.None? && address != "" {
        found := FindMember(View(), address);
      }
      var ms, i := members, |members|;
      if found.None? {
        ms := ms + [Member(telegramId, "", false, None)];
      } else {
        i := found.value;
      }
      if address != "" && ms[i].address == "" {
        if !IsAddress(address) {
          return Deny(MissingAddress);
        }
        ms := ms[i := ms[i].(address := address)];
      }
      members := ms;
      revision := revision + 1;
      return Allow;
    }

    /** The member meant, or a new record for it; nothing is stored yet. */
    method FindOrAdd(who: string, address: string) returns (ms: seq<Member>, i: Option<nat>)
      ensures ms == Service.WithCandidate(View(), who, address) && i == Service.CandidateIndex(View(), who, address)
    {
      ms, i := members, FindMember(View(), who);
      if i.None? && address != "" {
        i := FindMember(View(), address);
      }
      if i.None? && IsAddress(who) {
        i := Some(|ms|);
        ms := ms + [Member("", who, false, None)];
      } else if i.None? && address != "" {
        i := Some(|ms|);
        ms := ms + [Member(who, address, false, None)];
      }
    }

    method ApproveMember(actor: string, who: string, address: string, caller: Option<string>) returns (v: Verdict)
      modifies this
      ensures Follows(Service.ApproveMember(old(View()), actor, who, address, caller), v)
      ensures v == Allow ==> nextMemberNo == old(nextMemberNo) + 1
    {
      v := CheckCallerIsHost(View(), caller);
      if v.Deny? {
        return;
      }
      var ms, found := FindOrAdd(who, address);
      if found.None? {
        v := CheckApproveMember(View(), actor, None);
        return;
      }
      var m := ms[found.value];
      if address != "" && m.address == "" {
        m := m.(address := address);
      }
      v := CheckApproveMember(View(), actor, Some(m));
      if v.Deny? {
        return;
      }
      members := ms[found.value := m.(approved := true, memberNo := Some(nextMemberNo))];
      nextMemberNo := nextMemberNo + 1;
      revision := revision + 1;
    }

    // ----- agents

    method RequestAgent(name: string, identityId: string, address: string) returns (v: Verdict)
      modifies this
      ensures Follows(Service.RequestAgent(old(View()), name, identityId, address), v)
    {
      if identityId == "" || !IsAddress(address) {
        return Deny(MissingIdentity);
      }
      var other := FindAgentByAddress(View(), address);
      if other.Some? && Lower(agents[other.value].name) != Lower(name) && !agents[other.value].removed {
        return Deny(AddressTaken);
      }
      var existing := FindAgent(View(), name);
      if existing.Some? && !agents[existing.value].removed {
        if agents[existing.value].registered {
          return Deny(AlreadyRegistered);
        }
        agents := agents[existing.value := agents[existing.value].(identityId := identityId, address := address)];
      } else {
        if existing.Some? {
          agents := agents[..existing.value] + agents[existing.value + 1..];
        }
        agents := agents + [Agent(name, identityId, address, Guest, false, false, false)];
      }
      revision := revision + 1;
      return Allow;
    }

    method ApproveAgent(actor: string, name: string, landed: bool, caller: Option<string>) returns (v: Verdict)
      modifies this
      ensures Follows(Service.ApproveAgent(old(View()), actor, name, landed, caller), v)
    {
      v := CheckCallerIsHost(View(), caller);
      if v.Deny? {
        return;
      }
      var target := FindTarget(View(), name);
      v := CheckApproveAgent(View(), actor, target);
      if v.Deny? {
        return;
      }
      var a := agents[target.value];
      if a.registered {
        return Deny(AlreadyRegistered);
      }
      a := a.(approved := true);
      if landed {
        a := a.(registered := true);
      }
      agents := agents[target.value := a];
      revision := revision + 1;
    }

    method RemoveAgent(actor: string, name: string, caller: Option<string>) returns (v: Verdict)
      modifies this
      ensures Follows(Service.RemoveAgent(old(View()), actor, name, caller), v)
    {
      v := CheckCallerIsHost(View(), caller);
      if v.Deny? {
        return;
      }
      var target := FindTarget(View(), name);
      v := CheckRemoveAgent(View(), actor, target);
      if v.Deny? {
        return;
      }
      var key := Lower(agents[target.value].name);
      agents := agents[target.value := agents[target.value].(removed := true)];
      claims := Select(claims, NotOf(key));
      CancelDrafts(key);
      revision := revision + 1;
    }

    /** The loop of `remove_agent` over the proposals. */
    method CancelDrafts(key: string)
      modifies this`proposals
      ensures proposals == Service.CancelDrafts(old(proposals), key)
    {
      for i := 0 to |proposals|
        invariant |proposals| == |old(proposals)|
        invariant proposals[..i] == Service.CancelDrafts(old(proposals), key)[..i]
        invariant proposals[i..] == old(proposals)[i..]
      {
        var p := proposals[i];
        assert p == old(proposals)[i..][0] == old(proposals)[i];
        if Lower(p.proposer) == key && p.status == Draft {
          proposals := proposals[i := p.(status := Cancelled)];
        }
        assert proposals[i] == Service.CancelDrafts(old(proposals), key)[i];
        assert proposals[i + 1..] == old(proposals)[i..][1..];
      }
    }

    // ----- coordination

    method ClaimTopic(agent: string, topic: string, now: Time) returns (v: Verdict)
      modifies this
      ensures Follows(Service.ClaimTopic(old(View()), agent, topic, now), v)
    {
      var live := ActiveClaims(claims, now);
      v := CheckClaim(View().(claims := live), agent, topic, now);
      if v.Deny? {
        return;
      }
      if ClaimOf(live, Lower(agent), now).Some? {
        claims := Service.RefreshClaim(live, Lower(agent), now);
      } else {
        var name := agents[FindAgent(View(), agent).value].name;
        claims := live + [Claim(name, Strip(topic), now + CLAIM_TTL, "")];
      }
      revision := revision + 1;
    }

    /** Drops the agent's live claim (on the topic, if one is given) and reports how many it dropped. */
    method ReleaseClaim(agent: string, topic: string, now: Time) returns (dropped: nat)
      modifies this
      ensures Follows(Service.ReleaseClaim(old(View()), agent, topic, now), Allow)
      ensures dropped + |claims| == |ActiveClaims(old(claims), now)|
    {
      var live := ActiveClaims(claims, now);
      var keep: seq<Claim> := [];
      dropped := 0;
      for i := 0 to |live|
        invariant keep == Select(live[..i], NotReleased(agent, topic))
        invariant dropped + |keep| == i
      {
        assert live[..i + 1][..i] == live[..i];
        if Passes(live[i], NotReleased(agent, topic)) {
          keep := keep + [live[i]];
        } else {
          dropped := dropped + 1;
        }
      }
      assert live[..|live|] == live;
      claims := keep;
      revision := revision + 1;
    }

    method RequestDraft(agent: string, ideaBy: string, topic: string, now: Time) returns (v: Verdict)
      modifies this
      ensures Follows(Service.RequestDraft(old(View()), agent, ideaBy, topic, now), v)
    {
      var text := Strip(topic);
      var live := ActiveClaims(claims, now);
      v := CheckClaim(View().(claims := live), agent, text, now);
      if v.Deny? {
        return;
      }
      var name := agents[FindAgent(View(), agent).value].name;
      claims := Select(live, NotOf(Lower(name)));
      claims := claims + [Claim(name, text, now + CLAIM_TTL, ideaBy)];
      revision := revision + 1;
    }

    method DraftProposal(agent: string, b: Brief, now: Time) returns (v: Verdict)
      modifies this
      ensures Follows(Service.DraftProposal(old(View()), agent, b, now), v)
    {
      if Strip(b.thesis) == "" {
        return Deny(NoThesis);
      }
      var live := ActiveClaims(claims, now);
      v := CheckDraft(View().(claims := live), agent, b, now);
      if v.Deny? {
        return;
      }
      var record := Service.DraftRecord(View().(claims := live), agent, b, now);
      nextProposalSeq := nextProposalSeq + 1;
      proposals := proposals + [record];
      claims := Select(live, NotOf(Lower(record.proposer)));
      revision := revision + 1;
    }

    method ShipDraft(ref: Ref, caller: Option<string>, now: Time) returns (v: Verdict)
      modifies this
      ensures Follows(Service.ShipDraft(old(View()), ref, caller, now), v)
    {
      v := CheckCallerIsHost(View(), caller);
      if v.Deny? {
        return;
      }
      var r := ProposalIndex(proposals, ref);
      if r.None? {
        return Deny(UnknownProposal);
      }
      var p := proposals[r.value];
      if p.status != Draft {
        return Deny(NotDraft);
      }
      if p.legs == [] || p.maxCapital <= 0 {
        return Deny(DraftNotReady);
      }
      v := CheckCooldown(fund, now);
      if v.Deny? {
        return;
      }
      proposals := proposals[r.value := p.(shippedAt := Some(now))];
      revision := revision + 1;
    }

    // ----- lifecycle

    method StartCooldown(now: Time)
      modifies this`fund
      ensures fund == Service.StartCooldown(old(fund), now)
      ensures fund == old(fund).(cooldownUntil := fund.cooldownUntil) && fund.cooldownUntil.Some?
      ensures fund.cooldownUntil.value >= now && (old(fund).cooldownUntil.Some? ==> fund.cooldownUntil.value >= old(fund).cooldownUntil.value)
    {
      var until := now + (if fund.cooldownPeriod > 0 then fund.cooldownPeriod as real else 0.0);
      if fund.cooldownUntil.None? || until > fund.cooldownUntil.value {
        fund := fund.(cooldownUntil := Some(until));
      }
    }

    method SetStatus(actor: string, ref: Ref, target: Option<Status>, onchainId: Option<int>, now: Time) returns (v: Verdict)
      modifies this
      ensures Follows(Service.SetStatus(old(View()), actor, ref, target, onchainId, now), v)
    {
      var r := ProposalIndex(proposals, ref);
      if r.None? {
        return Deny(UnknownProposal);
      }
      var p := proposals[r.value];
      v := Service.CheckProposerOrHost(View(), actor, p);
      if v.Deny? {
        return;
      }
      v := CheckTransition(p.status, target);
      if v.Deny? {
        return;
      }
      if p.status == Draft && target.value == Proposed {
        v := CheckCooldown(fund, now);
        if v.Deny? {
          return;
        }
      }
      proposals := proposals[r.value := Service.MovedTo(p, fund, target.value, onchainId, now)];
      if target.value == Vetoed {
        StartCooldown(now);
      }
      revision := revision + 1;
    }

    method SetChainState(ref: Ref, x: Service.Reading) returns (v: Verdict)
      modifies this
      ensures Follows(Service.SetChainState(old(View()), ref, x), v)
    {
      var r := ProposalIndex(proposals, ref);
      if r.None? {
        return Deny(UnknownProposal);
      }
      var p := proposals[r.value];
      if x.againstBps.Some? {
        p := p.(againstBps := if x.againstBps.value > 0 then x.againstBps.value else 0);
      }
      if x.votingEndsAt.Some? {
        p := p.(votingEndsAt := x.votingEndsAt);
      }
      if x.reviewEndsAt.Some? {
        p := p.(reviewEndsAt := x.reviewEndsAt);
      }
      proposals := proposals[r.value := p];
      revision := revision + 1;
      return Allow;
    }

    method ApplyFundCard(c: Service.FundCard)
      modifies this
      ensures Follows(Service.ApplyFundCard(old(View()), c), Allow)
    {
      if c.cooldownPeriod.Some? {
        fund := fund.(cooldownPeriod := c.cooldownPeriod.value);
      }
      if c.vetoThresholdBps.Some? {
        fund := fund.(vetoThresholdBps := c.vetoThresholdBps.value);
      }
      if c.gate.Some? {
        fund := fund.(cooldownUntil := c.gate.value);
      }
      if c.agentFeeBps.Some? {
        fund := fund.(agentFeeBps := c.agentFeeBps);
      }
      revision := revision + 1;
    }

    /** The legality test and `_chain_status`, with no other write between them.
        An illegal move is not an update, so the revision stays. */
    method ApplyChainStatus(id: nat, state: Service.ChainState, now: Time) returns (moved: bool)
      modifies this
      ensures View() == Service.ApplyChainStatus(old(View()), id, state, now).state
      ensures revision == old(revision) + (if moved then 1 else 0)
      ensures !moved ==> View() == old(View())
    {
      var r := ProposalIndex(proposals, Local(id));
      var target := Service.ChainTarget(state);
      if r.None? || target !in Transitions(proposals[r.value].status) {
        return false;
      }
      proposals := proposals[r.value := proposals[r.value].(status := target)];
      if target == Vetoed {
        StartCooldown(now);
      }
      revision := revision + 1;
      return true;
    }

    // ----- votes and settlement

    method RecordMemberVote(ref: Ref, voter: string, ballot: Service.Ballot, now: Time) returns (v: Verdict)
      modifies this
      ensures Follows(Service.RecordMemberVote(old(View()), ref, voter, ballot, now), v)
    {
      if ballot.Junk? {
        return Deny(BadSide);
      }
      var r := ProposalIndex(proposals, ref);
      var m := FindMember(View(), voter);
      v := CheckMemberVote(View(), m, r, now);
      if v.Deny? {
        return;
      }
      var tid := Service.BallotId(members[m.value]);
      var p := proposals[r.value];
      var backers := Without(p.backers, tid);
      var objectors := Without(p.objectors, tid);
      if ballot.Cast? {
        if ballot.side == Back {
          backers := backers + [tid];
        } else {
          objectors := objectors + [tid];
        }
      }
      assert backers + [] == backers && objectors + [] == objectors;
      assert p.(backers := backers, objectors := objectors) == Service.Voted(p, tid, ballot);
      proposals := proposals[r.value := p.(backers := backers, objectors := objectors)];
      revision := revision + 1;
    }

    method RecordAgentReview(ref: Ref, agent: string, ballot: Service.Ballot) returns (v: Verdict)
      modifies this
      ensures Follows(Service.RecordAgentReview(old(View()), ref, agent, ballot), v)
    {
      if !ballot.Cast? {
        return Deny(BadSide);
      }
      var r := ProposalIndex(proposals, ref);
      v := CheckReview(View(), agent, r);
      if v.Deny? {
        return;
      }
      var name := agents[FindAgent(View(), agent).value].name;
      var p := proposals[r.value];
      var reviews := Service.ReviewsNotBy(p.reviews, Lower(name));
      reviews := reviews + [AgentReview(name, ballot.side)];
      proposals := proposals[r.value := p.(reviews := reviews)];
      revision := revision + 1;
    }

    method RecordSettle(actor: string, ref: Ref, pnl: int, now: Time) returns (v: Verdict)
      modifies this
      ensures Follows(Service.RecordSettle(old(View()), actor, ref, pnl, now), v)
    {
      var r := ProposalIndex(proposals, ref);
      if r.None? {
        return Deny(UnknownProposal);
      }
      var p := proposals[r.value];
      v := Service.CheckProposerOrHost(View(), actor, p);
      if v.Deny? {
        return;
      }
      v := CheckTransition(p.status, Some(Settled));
      if v.Deny? {
        return;
      }
      proposals := proposals[r.value := p.(status := Settled)];
      StartCooldown(now);
      receipts := receipts + [Receipt(p.id, p.proposer, p.ideaBy, pnl, now)];
      revision := revision + 1;
    }

    // ----- host setup

    method Configure(x: Service.Settings)
      modifies this
      ensures Follows(Service.Configure(old(View()), x), Allow)
    {
      fund := fund.(
        hostTelegramId := x.hostTelegramId,
        votingPeriod := x.votingPeriod,
        maxCapital := x.maxCapital,
        maxDrawdownBps := x.maxDrawdownBps,
        agentFeeBps := x.agentFeeBps);
      revision := revision + 1;
    }
  }
}
