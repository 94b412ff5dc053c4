/** Who can move a proposal: for every action and every status, exactly when the action brings a proposal to it. */
module Authority {
  import opened Text
  import opened FundModel
  import opened Rules
  import opened Protocol
  import opened Evolution
  import Service

  /** The name finds an agent who is not removed and is either the proposer, registered, or a host. */
  predicate MaySteer(s: FundState, actor: string, p: Proposal) {
    var r := FindAgent(s, actor);
    && r.Some? && !s.agents[r.value].removed
    && (if Lower(actor) == Lower(p.proposer) then s.agents[r.value].registered else s.agents[r.value].role == Host)
  }

  predicate CoolingAt(f: Fund, now: Time) {
    f.cooldownUntil.Some? && now < f.cooldownUntil.value
  }

  /** The action is one of the four that can bring proposal i to the status, and comes from someone who may do it. */
  predicate Causes(s: FundState, a: Action, now: Time, i: nat, to: Status)
    requires i < |s.proposals|
  {
    var p := s.proposals[i];
    match a
    case SetStatus(actor, ref, target, _) =>
      && ProposalIndex(s.proposals, ref) == Some(i) && target == Some(to) && MaySteer(s, actor, p)
      && (to == Proposed ==> !CoolingAt(s.fund, now))
    case ApplyChainStatus(id, state) => ProposalIndex(s.proposals, Local(id)) == Some(i) && Service.ChainTarget(state) == to
    case RecordSettle(actor, ref, _) => ProposalIndex(s.proposals, ref) == Some(i) && to == Settled && MaySteer(s, actor, p)
    case RemoveAgent(actor, name, caller) => p.status == Draft && to == Cancelled && Removes(s, actor, name, caller, p.proposer)
    case _ => false
  }

  /** A host, through the host's own account if one is given, removes the guest who is this proposer. */
  predicate Removes(s: FundState, actor: string, name: string, caller: Option<string>, proposer: string) {
    var host, gone := FindAgent(s, actor), FindTarget(s, name);
    && host.Some? && !s.agents[host.value].removed && s.agents[host.value].role == Host
    && (caller.Some? ==> s.fund.hostTelegramId != "" && caller.value == s.fund.hostTelegramId)
    && gone.Some? && !s.agents[gone.value].removed && s.agents[gone.value].role == Guest
    && Lower(s.agents[gone.value].name) == Lower(proposer)
  }

  /** Proposal i is brought to the status by the action just when `cause` says so. */
  predicate MovesIff(s: FundState, o: Outcome, i: nat, to: Status, cause: bool)
    requires i < |s.proposals|
  {
    var t := if o.Done? then o.state else s;
    i < |t.proposals| && (t.proposals[i].status == to <==> to in Transitions(s.proposals[i].status) && cause)
  }

  lemma BySetStatus(s: FundState, a: Action, now: Time, i: nat, to: Status)
    requires a.SetStatus? && i < |s.proposals| && to != s.proposals[i].status
    ensures MovesIff(s, Service.SetStatus(s, a.actor, a.ref, a.target, a.onchainId, now), i, to, Causes(s, a, now, i, to))
  {
    var r := ProposalIndex(s.proposals, a.ref);
    if r == Some(i) && a.target == Some(to) {
      AllowedIff(s, a, now, i, to);
    }
    if Service.SetStatus(s, a.actor, a.ref, a.target, a.onchainId, now).Done? {
      SetStatusDone(s, a.actor, a.ref, a.target, a.onchainId, now);
      MoveMoves(s, r.value, a.target.value, a.onchainId, now, i, to);
    }
  }

  lemma MoveMoves(s: FundState, r: nat, target: Status, onchainId: Option<int>, now: Time, i: nat, to: Status)
    requires r < |s.proposals| && i < |s.proposals| && to != s.proposals[i].status && target in Transitions(s.proposals[r].status)
    ensures MovesIff(s, Done(Service.AfterMove(s, r, target, onchainId, now)), i, to, r == i && target == to)
  {}

  lemma AllowedIff(s: FundState, a: Action, now: Time, i: nat, to: Status)
    requires a.SetStatus? && i < |s.proposals| && ProposalIndex(s.proposals, a.ref) == Some(i) && a.target == Some(to)
    ensures Service.SetStatus(s, a.actor, a.ref, a.target, a.onchainId, now).Done?
            <==> to in Transitions(s.proposals[i].status) && Causes(s, a, now, i, to)
  {
    OnlyFromDraft(s.proposals[i].status);
  }

  lemma OnlyFromDraft(st: Status)
    ensures Proposed in Transitions(st) <==> st == Draft
  {}

  lemma ByChain(s: FundState, a: Action, now: Time, i: nat, to: Status)
    requires a.ApplyChainStatus? && i < |s.proposals| && to != s.proposals[i].status
    ensures MovesIff(s, Service.ApplyChainStatus(s, a.id, a.state, now), i, to, Causes(s, a, now, i, to))
  {}

  lemma BySettle(s: FundState, a: Action, now: Time, i: nat, to: Status)
    requires a.RecordSettle? && i < |s.proposals| && to != s.proposals[i].status
    ensures MovesIff(s, Service.RecordSettle(s, a.actor, a.ref, a.pnl, now), i, to, Causes(s, a, now, i, to))
  {}

  lemma ByRemoval(s: FundState, a: Action, now: Time, i: nat, to: Status)
    requires a.RemoveAgent? && i < |s.proposals| && to != s.proposals[i].status
    ensures MovesIff(s, Service.RemoveAgent(s, a.actor, a.name, a.caller), i, to, Causes(s, a, now, i, to))
  {}

  lemma ByNote(s: FundState, a: Action, now: Time, i: nat, to: Status)
    requires a.ShipDraft? || a.SetChainState? || a.RecordMemberVote? || a.RecordAgentReview?
    requires i < |s.proposals| && to != s.proposals[i].status
    ensures MovesIff(s, Apply(s, a, now), i, to, false)
  {
    match a {
      case ShipDraft(ref, caller) => ShippingMovesNone(s, ref, caller, now, i, to);
      case SetChainState(ref, x) => ReadingMovesNone(s, ref, x, i, to);
      case RecordMemberVote(ref, voter, b) => VotesMoveNone(s, ref, voter, b, now, i, to);
      case RecordAgentReview(ref, agent, b) => VotesMoveNone(s, ref, agent, b, now, i, to);
    }
  }

  lemma ShippingMovesNone(s: FundState, ref: Ref, caller: Option<string>, now: Time, i: nat, to: Status)
    requires i < |s.proposals| && to != s.proposals[i].status
    ensures MovesIff(s, Service.ShipDraft(s, ref, caller, now), i, to, false)
  {}

  lemma ReadingMovesNone(s: FundState, ref: Ref, x: Service.Reading, i: nat, to: Status)
    requires i < |s.proposals| && to != s.proposals[i].status
    ensures MovesIff(s, Service.SetChainState(s, ref, x), i, to, false)
  {}

  lemma VotesMoveNone(s: FundState, ref: Ref, voter: string, b: Service.Ballot, now: Time, i: nat, to: Status)
    requires i < |s.proposals| && to != s.proposals[i].status
    ensures MovesIff(s, Service.RecordMemberVote(s, ref, voter, b, now), i, to, false)
    ensures MovesIff(s, Service.RecordAgentReview(s, ref, voter, b), i, to, false)
  {}

  lemma ByOther(s: FundState, a: Action, now: Time, i: nat, to: Status)
    requires !ActsOnOneProposal(a) && !a.RemoveAgent? && i < |s.proposals| && to != s.proposals[i].status
    ensures MovesIff(s, Apply(s, a, now), i, to, false)
  {
    OtherStep(s, a, now);
    if a.DraftProposal? {
      DraftMovesNone(s, a.agent, a.brief, now, i, to);
    }
  }

  lemma DraftMovesNone(s: FundState, agent: string, b: Brief, now: Time, i: nat, to: Status)
    requires i < |s.proposals| && to != s.proposals[i].status
    ensures MovesIff(s, Service.DraftProposal(s, agent, b, now), i, to, false)
  {}

  /** Whatever the action, it brings a proposal to a new status exactly when that is a legal step and the action is one
      that may cause it: a status move or a settlement of that proposal by its registered proposer or an active host, a
      row of a chain card for it, or (draft to cancelled) the removal of its proposer by the host. */
  lemma StatusMovesIff(s: FundState, a: Action, now: Time, i: nat, to: Status)
    requires i < |s.proposals| && to != s.proposals[i].status
    ensures MovesIff(s, Apply(s, a, now), i, to, Causes(s, a, now, i, to))
  {
    match a {
      case SetStatus(_, _, _, _) => BySetStatus(s, a, now, i, to);
      case ApplyChainStatus(_, _) => ByChain(s, a, now, i, to);
      case RecordSettle(_, _, _) => BySettle(s, a, now, i, to);
      case RemoveAgent(_, _, _) => ByRemoval(s, a, now, i, to);
      case _ =>
        if ActsOnOneProposal(a) {
          ByNote(s, a, now, i, to);
        } else {
          ByOther(s, a, now, i, to);
        }
    }
  }

  /** No one else gets a proposal to move: over steps of a run without such a cause it stays where it was. */
  lemma {:induction false} NoCauseNoMove(s: FundState, script: Script, i: nat, k: nat, m: nat)
    requires k <= m <= |script| && i < |At(s, script, k).proposals|
    requires forall j, to :: k <= j < m && i < |At(s, script, j).proposals|
               ==> !Causes(At(s, script, j), script[j].action, script[j].now, i, to)
    ensures i < |At(s, script, m).proposals| && At(s, script, m).proposals[i].status == At(s, script, k).proposals[i].status
    decreases m
  {
    if k < m {
      NoCauseNoMove(s, script, i, k, m - 1);
      AtStep(s, script, m - 1);
      Unmoved(At(s, script, m - 1), script[m - 1].action, script[m - 1].now, i);
    }
  }

  lemma Unmoved(s: FundState, a: Action, now: Time, i: nat)
    requires i < |s.proposals| && forall to :: !Causes(s, a, now, i, to)
    ensures i < |Next(s, a, now).proposals| && Next(s, a, now).proposals[i].status == s.proposals[i].status
  {
    StepEvolves(s, a, now);
    var to := Next(s, a, now).proposals[i].status;
    if to != s.proposals[i].status {
      StatusMovesIff(s, a, now, i, to);
    }
  }
}
