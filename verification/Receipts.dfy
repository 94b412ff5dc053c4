/** The receipts over whole runs. */
module Receipts {
  import opened Text
  import opened FundModel
  import opened Rules
  import opened Protocol
  import opened Evolution
  import opened ChainRace
  import opened Moves
  import opened Scenario
  import Service

  /** Local ids rise along the list and stay below the next one. */
  predicate IdsOk(ps: seq<Proposal>, next: nat) {
    && (forall i :: 0 <= i < |ps| ==> ps[i].id < next)
    && (forall i, j :: 0 <= i < j < |ps| ==> ps[i].id < ps[j].id)
  }

  predicate SettledId(ps: seq<Proposal>, id: nat) {
    exists i :: 0 <= i < |ps| && ps[i].id == id && ps[i].status == Settled
  }

  /** Receipts name pairwise different proposals, all of them settled. */
  ghost predicate ReceiptsOk(rs: seq<Receipt>, ps: seq<Proposal>) {
    && (forall i, j :: 0 <= i < j < |rs| ==> rs[i].proposalId != rs[j].proposalId)
    && (forall i :: 0 <= i < |rs| ==> SettledId(ps, rs[i].proposalId))
  }

  ghost predicate BooksOk(s: FundState) {
    IdsOk(s.proposals, s.nextProposalSeq) && ReceiptsOk(s.receipts, s.proposals)
  }

  lemma EvolveKeepsSettled(ps: seq<Proposal>, qs: seq<Proposal>, id: nat)
    requires AllEvolve(ps, qs) && SettledId(ps, id)
    ensures SettledId(qs, id)
  {
    var i :| 0 <= i < |ps| && ps[i].id == id && ps[i].status == Settled;
    assert Evolves(ps[i], qs[i]);
  }

  lemma EvolveKeepsReceipts(rs: seq<Receipt>, ps: seq<Proposal>, qs: seq<Proposal>)
    requires ReceiptsOk(rs, ps) && AllEvolve(ps, qs)
    ensures ReceiptsOk(rs, qs)
  {
    forall i | 0 <= i < |rs|
      ensures SettledId(qs, rs[i].proposalId)
    {
      EvolveKeepsSettled(ps, qs, rs[i].proposalId);
    }
  }

  lemma SettleKeepsBooks(s: FundState, actor: string, ref: Ref, pnl: int, now: Time)
    requires BooksOk(s) && Service.RecordSettle(s, actor, ref, pnl, now).Done?
    ensures BooksOk(Service.RecordSettle(s, actor, ref, pnl, now).state)
  {
    var r := ProposalIndex(s.proposals, ref).value;
    var p := s.proposals[r];
    var qs := s.proposals[r := p.(status := Settled)];
    assert Evolves(p, qs[r]);
    EvolveKeepsReceipts(s.receipts, s.proposals, qs);
    assert qs[r].id == p.id;
    assert SettledId(qs, p.id);
    forall i | 0 <= i < |s.receipts|
      ensures s.receipts[i].proposalId != p.id
    {
      var k :| 0 <= k < |s.proposals| && s.proposals[k].id == s.receipts[i].proposalId && s.proposals[k].status == Settled;
    }
  }

  /** Only `record_settle` writes a receipt. */
  lemma OneProposalKeepsReceipts(s: FundState, a: Action, now: Time)
    requires ActsOnOneProposal(a) && !a.RecordSettle?
    ensures Next(s, a, now).receipts == s.receipts
  {
    match a {
      case SetStatus(_, _, _, _) =>
      case _ =>
    }
  }

  lemma EvolveKeepsIds(ps: seq<Proposal>, qs: seq<Proposal>, next: nat)
    requires IdsOk(ps, next) && AllEvolve(ps, qs) && |ps| == |qs|
    ensures IdsOk(qs, next)
  {
    assert forall i :: 0 <= i < |ps| ==> Evolves(ps[i], qs[i]);
  }

  lemma DraftKeepsIds(s: FundState, a: Action, now: Time)
    requires a.DraftProposal? && IdsOk(s.proposals, s.nextProposalSeq)
    ensures IdsOk(Next(s, a, now).proposals, Next(s, a, now).nextProposalSeq)
  {}

  lemma StepKeepsBooks(s: FundState, a: Action, now: Time)
    requires BooksOk(s)
    ensures BooksOk(Next(s, a, now))
  {
    var t := Next(s, a, now);
    if a.RecordSettle? {
      if Apply(s, a, now).Done? {
        SettleKeepsBooks(s, a.actor, a.ref, a.pnl, now);
      }
    } else {
      StepEvolves(s, a, now);
      EvolveKeepsReceipts(s.receipts, s.proposals, t.proposals);
      if ActsOnOneProposal(a) {
        OneProposalStep(s, a, now);
        OneProposalKeepsReceipts(s, a, now);
        EvolveKeepsIds(s.proposals, t.proposals, s.nextProposalSeq);
      } else {
        OtherStep(s, a, now);
        if a.DraftProposal? {
          DraftKeepsIds(s, a, now);
        } else {
          EvolveKeepsIds(s.proposals, t.proposals, s.nextProposalSeq);
        }
      }
    }
  }

  /** In every reachable state the receipts name pairwise different proposals, each of them settled. */
  lemma {:induction false} ReceiptLedger(s: FundState, script: Script)
    requires Fresh(s)
    ensures BooksOk(After(s, script))
  {
    if script != [] {
      var n := |script| - 1;
      ReceiptLedger(s, script[..n]);
      StepKeepsBooks(After(s, script[..n]), script[n].action, script[n].now);
    }
  }

  // ----- late moves

  predicate HasReceipt(rs: seq<Receipt>, id: nat) {
    exists i :: 0 <= i < |rs| && rs[i].proposalId == id
  }

  /** A late move keeps the receipts right if and only if it names no known proposal, or one without a receipt. */
  lemma LateKeepsBooksIff(s: FundState, id: nat, state: Service.ChainState, now: Time)
    requires BooksOk(s)
    ensures BooksOk(Forced(s, id, state, now)) <==> ProposalIndex(s.proposals, Local(id)).None? || !HasReceipt(s.receipts, id)
  {
    var r := ProposalIndex(s.proposals, Local(id));
    if r.Some? {
      UnsettlingIff(s.receipts, s.proposals, s.nextProposalSeq, r.value, s.proposals[r.value].(status := Service.ChainTarget(state)));
    }
  }

  /** A proposal that becomes anything but settled. */
  lemma UnsettlingIff(rs: seq<Receipt>, ps: seq<Proposal>, next: nat, r: nat, q: Proposal)
    requires IdsOk(ps, next) && ReceiptsOk(rs, ps) && r < |ps| && q.id == ps[r].id && q.status != Settled
    ensures IdsOk(ps[r := q], next)
    ensures ReceiptsOk(rs, ps[r := q]) <==> !HasReceipt(rs, q.id)
  {
    var qs := ps[r := q];
    if HasReceipt(rs, q.id) {
      var i :| 0 <= i < |rs| && rs[i].proposalId == q.id;
      assert forall k :: 0 <= k < |qs| && qs[k].id == q.id ==> k == r;
      assert !SettledId(qs, rs[i].proposalId);
    } else {
      forall i | 0 <= i < |rs|
        ensures SettledId(qs, rs[i].proposalId)
      {
        var k :| 0 <= k < |ps| && ps[k].id == rs[i].proposalId && ps[k].status == Settled;
        assert qs[k] == ps[k];
      }
    }
  }

  ghost predicate SparesBooks(s: FundState, m: Move) {
    m.Late? ==> ProposalIndex(s.proposals, Local(m.id)).None? || !HasReceipt(s.receipts, m.id)
  }

  ghost function BookLaw(): Law {
    Law((s: FundState) => BooksOk(s), (s: FundState, m: Move) => true, (s: FundState, m: Move) => SparesBooks(s, m))
  }

  lemma BookLawIsExact()
    ensures Exact(BookLaw())
  {
    var law := BookLaw();
    forall s: FundState, m: Move | law.holds(s) && law.fair(s, m)
      ensures law.holds(Made(s, m)) <==> law.spares(s, m)
    {
      match m {
        case Act(e) => StepKeepsBooks(s, e.action, e.now);
        case Late(id, state, now) => LateKeepsBooksIff(s, id, state, now);
      }
    }
  }

  lemma FreshBooks(s: FundState)
    requires Fresh(s)
    ensures BooksOk(s)
  {}

  /** On a run with late moves the receipts name pairwise different, settled proposals throughout if and only if no late move
      names a proposal that has its receipt when it is made. */
  lemma RunBooksIff(s: FundState, moves: seq<Move>)
    requires Fresh(s)
    ensures (forall k :: 0 <= k <= |moves| ==> BooksOk(AfterMoves(s, moves[..k])))
            <==> (forall k :: 0 <= k < |moves| ==> SparesBooks(AfterMoves(s, moves[..k]), moves[k]))
  {
    var law := BookLaw();
    FreshBooks(s);
    BookLawIsExact();
    RunIff(law, s, moves);
    assert HoldsThroughout(law, s, moves) <==> (forall k :: 0 <= k <= |moves| ==> BooksOk(AfterMoves(s, moves[..k])));
    assert AllSpare(law, s, moves) <==> (forall k :: 0 <= k < |moves| ==> SparesBooks(AfterMoves(s, moves[..k]), moves[k]));
  }

  /** One proposal of the host, in this status. */
  predicate OneOfHost(s: FundState, status: Status) {
    && s.agents == [HostAgent()] && |s.proposals| == 1
    && s.proposals[0].id == 1 && s.proposals[0].proposer == "alpha" && s.proposals[0].status == status
  }

  const SETTLE := Act(Event(RecordSettle("alpha", Local(1), 0), 0.0))
  const LATE := Late(1, Service.ChainExecuted, 0.0)

  lemma HostSettles(s: FundState) returns (t: FundState)
    requires OneOfHost(s, Executed)
    ensures Service.RecordSettle(s, "alpha", Local(1), 0, 0.0) == Done(t) && OneOfHost(t, Settled)
    ensures |t.receipts| == |s.receipts| + 1 && t.receipts[..|s.receipts|] == s.receipts && t.receipts[|s.receipts|].proposalId == 1
  {
    HostActs(s);
    t := Service.RecordSettle(s, "alpha", Local(1), 0, 0.0).state;
  }

  lemma SettleMove(s: FundState) returns (t: FundState)
    requires OneOfHost(s, Executed)
    ensures Made(s, SETTLE) == t
    ensures && OneOfHost(t, Settled) && |t.receipts| == |s.receipts| + 1 && t.receipts[..|s.receipts|] == s.receipts
            && t.receipts[|s.receipts|].proposalId == 1
  {
    t := HostSettles(s);
    SettleMade(s, RecordSettle("alpha", Local(1), 0), 0.0, t);
  }

  lemma SettleMade(s: FundState, a: Action, now: Time, t: FundState)
    requires a.RecordSettle? && Service.RecordSettle(s, a.actor, a.ref, a.pnl, now) == Done(t)
    ensures Made(s, Act(Event(a, now))) == t
  {}

  lemma LateExecutes(s: FundState)
    requires OneOfHost(s, Settled)
    ensures var t := Made(s, LATE); OneOfHost(t, Executed) && t.receipts == s.receipts
  {
    ForcedAlone(s, Service.ChainExecuted, 0.0);
  }

  /** Settled, executed again by a late move, and settled again. */
  lemma SettledTwice(s0: FundState, past: seq<Move>)
    requires OneOfHost(AfterMoves(s0, past), Executed) && AfterMoves(s0, past).receipts == []
    ensures var rs := AfterMoves(s0, past + [SETTLE] + [LATE] + [SETTLE]).receipts;
            |rs| == 2 && rs[0].proposalId == 1 && rs[1].proposalId == 1
  {
    OneMoreMove(s0, past, SETTLE);
    OneMoreMove(s0, past + [SETTLE], LATE);
    OneMoreMove(s0, past + [SETTLE] + [LATE], SETTLE);
    var t2 := SettleMove(AfterMoves(s0, past));
    LateExecutes(t2);
    var t3 := SettleMove(Made(t2, LATE));
    assert t3.receipts[..1][0].proposalId == 1;
  }

  /** A late move among actions, tested j moves into the run. */
  lemma OneLateTested(s0: FundState, moves: seq<Move>, j: nat, n: nat)
    requires j <= n < |moves| && moves[n].Late? && Tested(AfterMoves(s0, moves[..j]), moves[n].id, moves[n].state)
    requires forall k :: 0 <= k < |moves| && k != n ==> moves[k].Act?
    ensures TestedBefore(s0, moves)
  {
    assert TestedUpTo(s0, moves, n, moves[n].id, moves[n].state);
  }

  /** A run from a fresh fund on which one proposal gets two receipts: the row "executed" passes its test, the host sets the
      proposal to executed and settles it, the late move makes it executed again, and the host settles it again. */
  lemma TwoReceipts() returns (s0: FundState, moves: seq<Move>)
    ensures Fresh(s0) && AllTrimmed(moves) && TestedBefore(s0, moves)
    ensures var rs := AfterMoves(s0, moves).receipts; |rs| == 2 && rs[0].proposalId == rs[1].proposalId
  {
    NewFundIsFresh();
    s0 := NewFund();
    var past, e := ToExecuted();
    var front := past + [Act(e)];
    SettledTwice(s0, front);
    moves := front + [SETTLE] + [LATE] + [SETTLE];
    LateIsThird(past, Act(e));
    OneLateTested(s0, moves, |past|, |past| + 2);
  }

  lemma LateIsThird(past: seq<Move>, a: Move)
    requires AllTrimmed(past) && NameTrimmed(a) && a.Act? && forall k :: 0 <= k < |past| ==> past[k].Act?
    ensures var moves := past + [a] + [SETTLE] + [LATE] + [SETTLE];
            && moves[..|past|] == past && |moves| == |past| + 4 && moves[|past| + 2] == LATE && AllTrimmed(moves)
            && forall k :: 0 <= k < |moves| && k != |past| + 2 ==> moves[k].Act?
  {}

  /** Drafted, proposed, passed and approved, when the row "executed" passes its test, and then executed. */
  lemma ToExecuted() returns (past: seq<Move>, e: Event)
    ensures AllTrimmed(past) && e.action.NamesTrimmed() && forall k :: 0 <= k < |past| ==> past[k].Act?
    ensures Tested(AfterMoves(NewFund(), past), 1, Service.ChainExecuted)
    ensures var t := AfterMoves(NewFund(), past + [Act(e)]); OneOfHost(t, Executed) && t.receipts == []
  {
    var script, p := ToApproved();
    ScriptIsMoves(NewFund(), script);
    past := Acts(script);
    ForcedAlone(Book([], [p], 2), Service.ChainExecuted, 0.0);
    var q: Proposal;
    e, q := MoveEvent([], p, 2, Executed);
    OneMoreMove(NewFund(), past, Act(e));
  }
}
