/** Whom the receipts credit, over whole runs. */
module Credits {
  import opened Text
  import opened FundModel
  import opened Rules
  import opened Protocol
  import opened Evolution
  import opened ChainRace
  import opened Terms
  import Acceptance
  import Drafts
  import Effects
  import Receipts
  import Service

  /** One accepted settlement: which proposal, with what profit or loss, and when. */
  datatype Settlement = Settlement(place: nat, pnl: int, at: Time)

  /** The settlement that the move is, if it is one and its terms are met. */
  ghost function SettlementIn(s: FundState, m: Move): Option<Settlement> {
    if m.Act? && m.event.action.RecordSettle? && Acceptance.SettleTerms(s, m.event.action.actor, m.event.action.ref) then
      var r: nat :| NamesProposal(s, m.event.action.ref, r);
      Some(Settlement(r, m.event.action.pnl, m.event.now))
    else None
  }

  /** The accepted settlements of a run, oldest first. */
  ghost function Settlements(s: FundState, moves: seq<Move>): seq<Settlement> {
    if moves == [] then []
    else
      var n := |moves| - 1;
      var c := SettlementIn(AfterMoves(s, moves[..n]), moves[n]);
      Settlements(s, moves[..n]) + (if c.Some? then [c.value] else [])
  }

  /** The receipt names the proposal, its proposer and its idea giver, and says what the settlement said. */
  predicate Credits(c: Receipt, x: Settlement, ps: seq<Proposal>) {
    && x.place < |ps|
    && c.proposalId == ps[x.place].id && c.agent == ps[x.place].proposer && c.ideaBy == ps[x.place].ideaBy
    && c.pnl == x.pnl && c.settledAt == x.at
  }

  ghost predicate AllCredit(rs: seq<Receipt>, xs: seq<Settlement>, ps: seq<Proposal>) {
    |rs| == |xs| && forall i :: 0 <= i < |rs| ==> Credits(rs[i], xs[i], ps)
  }

  lemma SettleStep(s: FundState, actor: string, ref: Ref, pnl: int, now: Time, r: nat)
    requires Acceptance.SettleTerms(s, actor, ref) && NamesProposal(s, ref, r)
    ensures var o := Service.RecordSettle(s, actor, ref, pnl, now);
            && o.Done? && |o.state.receipts| == |s.receipts| + 1 && o.state.receipts[..|s.receipts|] == s.receipts
            && Credits(o.state.receipts[|s.receipts|], Settlement(r, pnl, now), s.proposals)
  {
    Acceptance.SettleIff(s, actor, ref, pnl, now);
    Effects.SettleIs(s, actor, ref, pnl, now);
    FindsProposal(s, ref);
  }

  lemma NoSettleStep(s: FundState, a: Action, now: Time)
    requires a.RecordSettle? ==> !Acceptance.SettleTerms(s, a.actor, a.ref)
    ensures Next(s, a, now).receipts == s.receipts
  {
    if a.RecordSettle? {
      Acceptance.SettleIff(s, a.actor, a.ref, a.pnl, now);
    } else if ActsOnOneProposal(a) {
      Receipts.OneProposalKeepsReceipts(s, a, now);
    } else {
      OtherStep(s, a, now);
    }
  }

  lemma MoveCredits(s: FundState, m: Move, x: Option<Settlement>, t: FundState)
    requires x == SettlementIn(s, m) && t == Made(s, m)
    ensures |t.receipts| == |s.receipts| + (if x.Some? then 1 else 0) && t.receipts[..|s.receipts|] == s.receipts
    ensures x.Some? ==> Credits(t.receipts[|s.receipts|], x.value, s.proposals)
  {
    if m.Act? {
      var a, now := m.event.action, m.event.now;
      if x.Some? {
        SettleStep(s, a.actor, a.ref, a.pnl, now, x.value.place);
        SettleMade(s, a, now, t);
      } else {
        NoSettleStep(s, a, now);
      }
    }
  }

  lemma SettleMade(s: FundState, a: Action, now: Time, t: FundState)
    requires a.RecordSettle? && t == Next(s, a, now) && Service.RecordSettle(s, a.actor, a.ref, a.pnl, now).Done?
    ensures t == Service.RecordSettle(s, a.actor, a.ref, a.pnl, now).state
  {}

  lemma CreditsKept(c: Receipt, x: Settlement, ps: seq<Proposal>, qs: seq<Proposal>)
    requires Credits(c, x, ps) && |ps| <= |qs| && forall i :: 0 <= i < |ps| ==> Drafts.SameDraft(ps[i], qs[i])
    ensures Credits(c, x, qs)
  {}

  lemma AllCreditSnoc(rs: seq<Receipt>, xs: seq<Settlement>, x: Option<Settlement>, ps: seq<Proposal>, ts: seq<Receipt>, qs: seq<Proposal>)
    requires AllCredit(rs, xs, ps) && |ts| == |rs| + (if x.Some? then 1 else 0) && ts[..|rs|] == rs
    requires x.Some? ==> Credits(ts[|rs|], x.value, ps)
    requires |ps| <= |qs| && forall i :: 0 <= i < |ps| ==> Drafts.SameDraft(ps[i], qs[i])
    ensures AllCredit(ts, xs + (if x.Some? then [x.value] else []), qs)
  {
    forall i | 0 <= i < |rs|
      ensures Credits(ts[i], xs[i], qs)
    {
      assert ts[i] == rs[i];
      CreditsKept(rs[i], xs[i], ps, qs);
    }
  }

  /** On every run from a fresh fund, late moves included, the receipts are the accepted settlements in order: each names the
      proposal that was settled, credits the agent on record as its proposer and the person on record as its idea giver, and
      carries the profit or loss and the time of that settlement. */
  lemma {:induction false} CreditLedger(s: FundState, moves: seq<Move>)
    requires Fresh(s)
    ensures AllCredit(AfterMoves(s, moves).receipts, Settlements(s, moves), AfterMoves(s, moves).proposals)
  {
    if moves != [] {
      var n := |moves| - 1;
      var before, after := AfterMoves(s, moves[..n]), AfterMoves(s, moves);
      CreditLedger(s, moves[..n]);
      var x := SettlementIn(before, moves[n]);
      MoveCredits(before, moves[n], x, after);
      Drafts.MoveTo(before, moves[n], after);
      AllCreditSnoc(before.receipts, Settlements(s, moves[..n]), x, before.proposals, after.receipts, after.proposals);
    }
  }
}
