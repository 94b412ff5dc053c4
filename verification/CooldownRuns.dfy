/** The cooldown after a veto or a recorded settlement, over whole runs. */
module CooldownRuns {
  import opened Text
  import opened FundModel
  import opened Rules
  import opened Protocol
  import opened Evolution
  import opened ChainRace
  import opened Scenario
  import Service

  /** The cooldown runs at least until `t`. */
  predicate CoolsUntil(f: Fund, t: Time) {
    f.cooldownUntil.Some? && f.cooldownUntil.value >= t
  }

  predicate OverwritesCooldown(a: Action) {
    a.ApplyFundCard? && a.card.gate.Some?
  }

  /** The actions that would lead to a new proposal on chain. */
  predicate Opens(a: Action) {
    a.ClaimTopic? || a.RequestDraft? || a.DraftProposal? || a.ShipDraft? || (a.SetStatus? && a.target == Some(Proposed))
  }

  /** How long the fund cools: a negative period counts as none. */
  function Period(f: Fund): Time {
    if f.cooldownPeriod > 0 then f.cooldownPeriod as real else 0.0
  }

  lemma OpensRefused(s: FundState, a: Action, now: Time)
    requires Opens(a) && CheckCooldown(s.fund, now) == Deny(Cooldown)
    ensures Apply(s, a, now).Refused?
  {
    match a {
      case ClaimTopic(_, _) =>
      case RequestDraft(_, _, _) =>
      case DraftProposal(_, _) =>
      case ShipDraft(_, _) =>
      case SetStatus(_, ref, _, _) =>
        var r := ProposalIndex(s.proposals, ref);
        if r.Some? {
          OnlyDraftsArePropsable(s.proposals[r.value].status);
        }
    }
  }

  lemma OnlyDraftsArePropsable(st: Status)
    ensures CheckTransition(st, Some(Proposed)) == Allow <==> st == Draft
  {}

  lemma MoveKeepsCooldown(s: FundState, a: Action, now: Time, t: Time)
    requires CoolsUntil(s.fund, t) && (a.SetStatus? || a.ApplyChainStatus? || a.RecordSettle?)
    ensures CoolsUntil(Next(s, a, now).fund, t)
  {
    match a {
      case SetStatus(_, _, _, _) =>
      case ApplyChainStatus(_, _) =>
      case RecordSettle(_, _, _) =>
    }
  }

  lemma NoteKeepsCooldown(s: FundState, a: Action, now: Time)
    requires a.ShipDraft? || a.SetChainState? || a.RecordMemberVote? || a.RecordAgentReview?
    ensures Next(s, a, now).fund == s.fund
  {
    match a {
      case ShipDraft(_, _) =>
      case SetChainState(_, _) =>
      case RecordMemberVote(_, _, _) =>
      case RecordAgentReview(_, _, _) =>
    }
  }

  lemma PeopleKeepCooldown(s: FundState, a: Action, now: Time)
    requires a.RequestMembership? || a.ApproveMember? || MovesAgents(a)
    ensures Next(s, a, now).fund == s.fund
  {
    match a {
      case RequestMembership(_, _) =>
      case ApproveMember(_, _, _, _) =>
      case RequestAgent(_, _, _) =>
      case ApproveAgent(_, _, _, _) =>
      case RemoveAgent(_, _, _) =>
    }
  }

  lemma ClaimsKeepCooldown(s: FundState, a: Action, now: Time)
    requires MovesClaims(a) && !a.RemoveAgent?
    ensures Next(s, a, now).fund == s.fund
  {
    match a {
      case ClaimTopic(_, _) =>
      case ReleaseClaim(_, _) =>
      case RequestDraft(_, _, _) =>
      case DraftProposal(_, _) =>
    }
  }

  /** Short of a chain card that says otherwise, no action shortens the cooldown. */
  lemma StepKeepsCooldown(s: FundState, a: Action, now: Time, t: Time)
    requires CoolsUntil(s.fund, t) && !OverwritesCooldown(a)
    ensures CoolsUntil(Next(s, a, now).fund, t)
  {
    if a.SetStatus? || a.ApplyChainStatus? || a.RecordSettle? {
      MoveKeepsCooldown(s, a, now, t);
    } else if ActsOnOneProposal(a) {
      NoteKeepsCooldown(s, a, now);
    } else if a.RequestMembership? || a.ApproveMember? || MovesAgents(a) {
      PeopleKeepCooldown(s, a, now);
    } else if MovesClaims(a) {
      ClaimsKeepCooldown(s, a, now);
    }
  }

  predicate Overwrites(m: Move) {
    m.Act? && OverwritesCooldown(m.event.action)
  }

  function TimeOf(m: Move): Time {
    match m
    case Act(e) => e.now
    case Late(_, _, now) => now
  }

  lemma MoveNeverShortens(s: FundState, m: Move, t: Time)
    requires CoolsUntil(s.fund, t) && !Overwrites(m)
    ensures CoolsUntil(Made(s, m).fund, t)
  {
    if m.Act? {
      StepKeepsCooldown(s, m.event.action, m.event.now, t);
    }
  }

  lemma {:induction false} RunKeepsCooldown(s: FundState, moves: seq<Move>, t: Time)
    requires CoolsUntil(s.fund, t) && forall k :: 0 <= k < |moves| ==> !Overwrites(moves[k])
    ensures CoolsUntil(AfterMoves(s, moves).fund, t)
  {
    if moves != [] {
      var n := |moves| - 1;
      RunKeepsCooldown(s, moves[..n], t);
      MoveNeverShortens(AfterMoves(s, moves[..n]), moves[n], t);
    }
  }

  /** In this step some proposal becomes vetoed, or a settlement is recorded. */
  ghost predicate StartsCooldown(s: FundState, a: Action, now: Time) {
    var t := Next(s, a, now);
    || (a.RecordSettle? && Apply(s, a, now).Done?)
    || (exists i :: 0 <= i < |s.proposals| && i < |t.proposals| && s.proposals[i].status != Vetoed && t.proposals[i].status == Vetoed)
  }

  predicate VetoCools(s: FundState, o: Outcome, ref: Ref, now: Time) {
    var r := ProposalIndex(s.proposals, ref);
    o.Done? && r.Some? && |o.state.proposals| == |s.proposals|
    && s.proposals[r.value].status != Vetoed && o.state.proposals[r.value].status == Vetoed
    ==> CoolsUntil(o.state.fund, now + Period(s.fund))
  }

  lemma MovesCool(s: FundState, actor: string, ref: Ref, target: Option<Status>, onchainId: Option<int>, now: Time)
    ensures VetoCools(s, Service.SetStatus(s, actor, ref, target, onchainId, now), ref, now)
  {}

  lemma ChainMovesCool(s: FundState, id: nat, state: Service.ChainState, now: Time)
    ensures VetoCools(s, Service.ApplyChainStatus(s, id, state, now), Local(id), now)
  {}

  lemma ShipNeverVetoes(s: FundState, ref: Ref, caller: Option<string>, now: Time)
    ensures VetoCools(s, Service.ShipDraft(s, ref, caller, now), ref, now)
  {}

  lemma ReadingNeverVetoes(s: FundState, ref: Ref, x: Service.Reading, now: Time)
    ensures VetoCools(s, Service.SetChainState(s, ref, x), ref, now)
  {}

  lemma VotesNeverVeto(s: FundState, ref: Ref, voter: string, b: Service.Ballot, now: Time)
    ensures VetoCools(s, Service.RecordMemberVote(s, ref, voter, b, now), ref, now)
    ensures VetoCools(s, Service.RecordAgentReview(s, ref, voter, b), ref, now)
  {}

  lemma VetoStepCools(s: FundState, a: Action, now: Time)
    requires a.SetStatus? || a.ApplyChainStatus?
    ensures VetoCools(s, Apply(s, a, now), RefOf(a), now)
  {
    if a.SetStatus? {
      MovesCool(s, a.actor, a.ref, a.target, a.onchainId, now);
    } else {
      ChainMovesCool(s, a.id, a.state, now);
    }
  }

  lemma OtherStepsNeverVeto(s: FundState, a: Action, now: Time)
    requires a.ShipDraft? || a.SetChainState? || a.RecordMemberVote? || a.RecordAgentReview?
    ensures VetoCools(s, Apply(s, a, now), RefOf(a), now)
  {
    match a {
      case ShipDraft(ref, caller) => ShipNeverVetoes(s, ref, caller, now);
      case SetChainState(ref, x) => ReadingNeverVetoes(s, ref, x, now);
      case RecordMemberVote(ref, voter, b) => VotesNeverVeto(s, ref, voter, b, now);
      case RecordAgentReview(ref, agent, b) => VotesNeverVeto(s, ref, agent, b, now);
    }
  }

  /** Every veto, by the host or by the chain, and every recorded settlement starts the cooldown. */
  lemma CooldownStarts(s: FundState, a: Action, now: Time)
    requires StartsCooldown(s, a, now)
    ensures CoolsUntil(Next(s, a, now).fund, now + Period(s.fund))
  {
    if !a.RecordSettle? {
      if ActsOnOneProposal(a) {
        OneProposalStep(s, a, now);
        if a.SetStatus? || a.ApplyChainStatus? {
          VetoStepCools(s, a, now);
        } else {
          OtherStepsNeverVeto(s, a, now);
        }
      } else {
        OtherStep(s, a, now);
        if a.DraftProposal? || a.RemoveAgent? {
          NoVeto(s, a, now);
        }
      }
    }
  }

  lemma NoVeto(s: FundState, a: Action, now: Time)
    requires a.DraftProposal? || a.RemoveAgent?
    ensures forall i :: 0 <= i < |s.proposals| && i < |Next(s, a, now).proposals| && s.proposals[i].status != Vetoed
              ==> Next(s, a, now).proposals[i].status != Vetoed
  {}

  /** In this move some proposal becomes vetoed, or a settlement is recorded. */
  ghost predicate Starts(s: FundState, m: Move) {
    match m
    case Act(e) => StartsCooldown(s, e.action, e.now)
    case Late(id, state, _) =>
      var r := ProposalIndex(s.proposals, Local(id));
      r.Some? && s.proposals[r.value].status != Vetoed && state == Service.Rejected
  }

  lemma MoveStarts(s: FundState, m: Move)
    requires Starts(s, m)
    ensures CoolsUntil(Made(s, m).fund, TimeOf(m) + Period(s.fund))
  {
    if m.Act? {
      CooldownStarts(s, m.event.action, m.event.now);
    }
  }

  /** After a veto or a recorded settlement at time t, on a run, late moves included, in which no chain card overwrites the
      cooldown, every claim, draft request, draft, ship-it and draft-to-proposed step with a reading before
      t + cooldown_period is refused. */
  lemma NothingOpensWhileCooling(s: FundState, moves: seq<Move>, k: nat, m: nat)
    requires k < m < |moves|
    requires Starts(AfterMoves(s, moves[..k]), moves[k])
    requires forall j :: k < j < m ==> !Overwrites(moves[j])
    requires moves[m].Act? && Opens(moves[m].event.action)
    requires moves[m].event.now < TimeOf(moves[k]) + Period(AfterMoves(s, moves[..k]).fund)
    ensures Apply(AfterMoves(s, moves[..m]), moves[m].event.action, moves[m].event.now).Refused?
  {
    var t := TimeOf(moves[k]) + Period(AfterMoves(s, moves[..k]).fund);
    MovesStep(s, moves, k);
    MoveStarts(AfterMoves(s, moves[..k]), moves[k]);
    CoolingLasts(s, moves, k + 1, m, t);
    OpensRefused(AfterMoves(s, moves[..m]), moves[m].event.action, moves[m].event.now);
  }

  lemma {:induction false} CoolingLasts(s: FundState, moves: seq<Move>, k: nat, m: nat, t: Time)
    requires k <= m <= |moves| && CoolsUntil(AfterMoves(s, moves[..k]).fund, t)
    requires forall j :: k <= j < m ==> !Overwrites(moves[j])
    ensures CoolsUntil(AfterMoves(s, moves[..m]).fund, t)
    decreases m - k
  {
    if k < m {
      CoolingLasts(s, moves, k, m - 1, t);
      MovesStep(s, moves, m - 1);
      MoveNeverShortens(AfterMoves(s, moves[..m - 1]), moves[m - 1], t);
    }
  }

  /** The end of the cooldown that the operation on the proposal leaves: the old one, or with a veto the veto's own. */
  ghost predicate EndOrVeto(s: FundState, o: Outcome, ref: Ref, now: Time) {
    var r := ProposalIndex(s.proposals, ref);
    o.Done? ==>
      || o.state.fund.cooldownUntil == s.fund.cooldownUntil
      || (&& o.state.fund.cooldownUntil == Some(now + Period(s.fund)) && r.Some? && |o.state.proposals| == |s.proposals|
          && s.proposals[r.value].status != Vetoed && o.state.proposals[r.value].status == Vetoed)
  }

  lemma MoveEnd(s: FundState, actor: string, ref: Ref, target: Option<Status>, onchainId: Option<int>, now: Time)
    ensures EndOrVeto(s, Service.SetStatus(s, actor, ref, target, onchainId, now), ref, now)
  {
    if Service.SetStatus(s, actor, ref, target, onchainId, now).Done? {
      SetStatusDone(s, actor, ref, target, onchainId, now);
    }
  }

  lemma ChainMoveEnd(s: FundState, id: nat, state: Service.ChainState, now: Time)
    ensures EndOrVeto(s, Service.ApplyChainStatus(s, id, state, now), Local(id), now)
  {}

  lemma SettleEnd(s: FundState, actor: string, ref: Ref, pnl: int, now: Time)
    requires Service.RecordSettle(s, actor, ref, pnl, now).Done?
    ensures var u := Service.RecordSettle(s, actor, ref, pnl, now).state.fund.cooldownUntil;
            u == s.fund.cooldownUntil || u == Some(now + Period(s.fund))
  {}

  lemma StepEnd(s: FundState, a: Action, now: Time)
    requires !OverwritesCooldown(a)
    ensures Next(s, a, now).fund.cooldownUntil == s.fund.cooldownUntil
            || (StartsCooldown(s, a, now) && Next(s, a, now).fund.cooldownUntil == Some(now + Period(s.fund)))
  {
    if a.SetStatus? {
      MoveEnd(s, a.actor, a.ref, a.target, a.onchainId, now);
    } else if a.ApplyChainStatus? {
      ChainMoveEnd(s, a.id, a.state, now);
    } else if a.RecordSettle? {
      if Apply(s, a, now).Done? {
        SettleEnd(s, a.actor, a.ref, a.pnl, now);
      }
    } else if ActsOnOneProposal(a) {
      NoteKeepsCooldown(s, a, now);
    } else if a.RequestMembership? || a.ApproveMember? || MovesAgents(a) {
      PeopleKeepCooldown(s, a, now);
    } else if MovesClaims(a) {
      ClaimsKeepCooldown(s, a, now);
    }
  }

  /** A late move leaves the end where it was, or with a veto sets its own; one on a proposal that is vetoed already does so
      too, although it starts nothing anew. */
  lemma MoveSetsEnd(s: FundState, m: Move)
    requires !Overwrites(m)
    ensures Made(s, m).fund.cooldownUntil == s.fund.cooldownUntil
            || (Vetoes(s, m) && Made(s, m).fund.cooldownUntil == Some(TimeOf(m) + Period(s.fund)))
  {
    if m.Act? {
      StepEnd(s, m.event.action, m.event.now);
    }
  }

  /** The move starts a cooldown, or is a late veto of a proposal that is vetoed already. */
  ghost predicate Vetoes(s: FundState, m: Move) {
    Starts(s, m) || (m.Late? && ProposalIndex(s.proposals, Local(m.id)).Some? && m.state == Service.Rejected)
  }

  lemma VetoCoolsToo(s: FundState, m: Move)
    requires Vetoes(s, m)
    ensures CoolsUntil(Made(s, m).fund, TimeOf(m) + Period(s.fund))
  {
    if Starts(s, m) {
      MoveStarts(s, m);
    }
  }

  ghost predicate VetoesAt(s: FundState, moves: seq<Move>, j: nat)
    requires j < |moves|
  {
    Vetoes(AfterMoves(s, moves[..j]), moves[j])
  }

  /** The end that the veto or settlement of move j asks for. */
  function EndOf(s: FundState, moves: seq<Move>, j: nat): Time
    requires j < |moves|
  {
    TimeOf(moves[j]) + Period(AfterMoves(s, moves[..j]).fund)
  }

  function EndAt(s: FundState, moves: seq<Move>, k: nat): Option<Time>
    requires k <= |moves|
  {
    AfterMoves(s, moves[..k]).fund.cooldownUntil
  }

  /** A veto or settlement between k and m asks for this end. */
  ghost predicate AskedFor(s: FundState, moves: seq<Move>, k: nat, m: nat, u: Option<Time>)
    requires m <= |moves|
  {
    exists j: nat :: k <= j < m && VetoesAt(s, moves, j) && u == Some(EndOf(s, moves, j))
  }

  lemma AskedAlso(s: FundState, moves: seq<Move>, k: nat, m: nat, u: Option<Time>)
    requires k <= m < |moves|
    requires AskedFor(s, moves, k, m, u) || (VetoesAt(s, moves, m) && u == Some(EndOf(s, moves, m)))
    ensures AskedFor(s, moves, k, m + 1, u)
  {}

  lemma {:induction false} EndHasSource(s: FundState, moves: seq<Move>, k: nat, m: nat)
    requires k <= m <= |moves| && forall j :: k <= j < m ==> !Overwrites(moves[j])
    ensures EndAt(s, moves, m) == EndAt(s, moves, k) || AskedFor(s, moves, k, m, EndAt(s, moves, m))
    decreases m
  {
    if k < m {
      EndHasSource(s, moves, k, m - 1);
      SourceOneMore(s, moves, k, m - 1, EndAt(s, moves, k));
    }
  }

  lemma SourceOneMore(s: FundState, moves: seq<Move>, k: nat, m: nat, first: Option<Time>)
    requires k <= m < |moves| && !Overwrites(moves[m])
    requires EndAt(s, moves, m) == first || AskedFor(s, moves, k, m, EndAt(s, moves, m))
    ensures EndAt(s, moves, m + 1) == first || AskedFor(s, moves, k, m + 1, EndAt(s, moves, m + 1))
  {
    EndAtStep(s, moves, m);
    var u := EndAt(s, moves, m + 1);
    if u != first {
      AskedAlso(s, moves, k, m, u);
    }
  }

  lemma EndAtStep(s: FundState, moves: seq<Move>, j: nat)
    requires j < |moves| && !Overwrites(moves[j])
    ensures EndAt(s, moves, j + 1) == EndAt(s, moves, j)
            || (VetoesAt(s, moves, j) && EndAt(s, moves, j + 1) == Some(EndOf(s, moves, j)))
  {
    MovesStep(s, moves, j);
    MoveSetsEnd(AfterMoves(s, moves[..j]), moves[j]);
  }

  /** Between two cards that overwrite it, the end of the cooldown is the latest of the one in force before and those that
      the vetoes, late ones included, and recorded settlements since then ask for: it is one of them, and none is later. */
  lemma CooldownIsLatest(s: FundState, moves: seq<Move>, k: nat, m: nat)
    requires k <= m <= |moves| && forall j :: k <= j < m ==> !Overwrites(moves[j])
    ensures EndAt(s, moves, m) == EndAt(s, moves, k) || AskedFor(s, moves, k, m, EndAt(s, moves, m))
    ensures EndAt(s, moves, k).Some? ==> CoolsUntil(AfterMoves(s, moves[..m]).fund, EndAt(s, moves, k).value)
    ensures forall j: nat :: k <= j < m && VetoesAt(s, moves, j) ==> CoolsUntil(AfterMoves(s, moves[..m]).fund, EndOf(s, moves, j))
  {
    EndHasSource(s, moves, k, m);
    if EndAt(s, moves, k).Some? {
      CoolingLasts(s, moves, k, m, EndAt(s, moves, k).value);
    }
    forall j: nat | k <= j < m && VetoesAt(s, moves, j)
      ensures CoolsUntil(AfterMoves(s, moves[..m]).fund, EndOf(s, moves, j))
    {
      StartLasts(s, moves, j, m);
    }
  }

  lemma StartLasts(s: FundState, moves: seq<Move>, j: nat, m: nat)
    requires j < m <= |moves| && VetoesAt(s, moves, j)
    requires forall i :: j < i < m ==> !Overwrites(moves[i])
    ensures CoolsUntil(AfterMoves(s, moves[..m]).fund, EndOf(s, moves, j))
  {
    MovesStep(s, moves, j);
    VetoCoolsToo(AfterMoves(s, moves[..j]), moves[j]);
    CoolingLasts(s, moves, j + 1, m, EndOf(s, moves, j));
  }

  /** The documented cooldown "after a veto or a settle" holds of settlements exactly when they are recorded with
      `record_settle`: moving an executed proposal to settled by hand starts none (and leaves no receipt). */
  lemma SettlingCoolsIff(s: FundState, a: Action, now: Time)
    requires a.RecordSettle? || (a.SetStatus? && a.target == Some(Settled))
    requires Apply(s, a, now).Done?
    ensures var until := now + Period(s.fund);
            CoolsUntil(Next(s, a, now).fund, until) <==> a.RecordSettle? || CoolsUntil(s.fund, until)
    ensures |Next(s, a, now).receipts| == |s.receipts| + (if a.RecordSettle? then 1 else 0)
  {
    match a {
      case RecordSettle(_, _, _) =>
      case SetStatus(_, _, _, _) =>
    }
  }

  lemma StillWarm(p: Proposal, now: Time)
    ensures Period(Book([], [p], 2).fund) == 3600.0 && !CoolsUntil(Book([], [p], 2).fund, now)
  {}

  /** A run from a fresh fund that ends in a settlement by hand, after which the host may claim at once. */
  lemma SettledByHand() returns (s0: FundState, script: Script, e: Event)
    ensures Fresh(s0) && NamesTrimmed(script) && e.action.SetStatus? && e.action.target == Some(Settled)
    ensures var s, t := After(s0, script), Next(After(s0, script), e.action, e.now);
            && Apply(s, e.action, e.now).Done? && |t.proposals| == 1 && t.proposals[0].status == Settled && t.receipts == []
            && Period(s.fund) == 3600.0 && !CoolsUntil(t.fund, e.now + Period(s.fund))
  {
    NewFundIsFresh();
    s0 := NewFund();
    var s1, p1 := ToApproved();
    var e2, p2 := MoveOn(s1, [], p1, 2, Executed);
    var e3, p3 := MoveOn(s1 + [e2], [], p2, 2, Settled);
    script, e := s1 + [e2], e3;
    StillWarm(p2, 0.0);
    StillWarm(p3, e.now + 3600.0);
  }
}
