/** A chain row is tested in one visit to the shared file and applied, untested, in another. When the two together are
    the single step that the other modules speak of (sherwood_monitor/fund/service.py:738-761). */
module ChainRace {
  import opened Text
  import opened FundModel
  import opened Rules
  import opened Protocol
  import opened Evolution
  import opened Scenario
  import Service

  /** The test of `apply_chain_card` on the state it loads. */
  predicate Tested(s: FundState, id: nat, state: Service.ChainState) {
    var r := ProposalIndex(s.proposals, Local(id));
    r.Some? && Service.ChainTarget(state) in Transitions(s.proposals[r.value].status)
  }

  /** `_chain_status`: the move without a test. */
  function Forced(s: FundState, id: nat, state: Service.ChainState, now: Time): FundState {
    var r := ProposalIndex(s.proposals, Local(id));
    var target := Service.ChainTarget(state);
    if r.None? then s
    else s.(proposals := s.proposals[r.value := s.proposals[r.value].(status := target)],
            fund := if target == Vetoed then Service.StartCooldown(s.fund, now) else s.fund)
  }

  /** On the state that passed the test the move is the single step. */
  lemma ForcedIsStep(s: FundState, id: nat, state: Service.ChainState, now: Time)
    requires Tested(s, id, state)
    ensures Next(s, ApplyChainStatus(id, state), now) == Forced(s, id, state, now)
  {}

  /** One committed update: an action, or the untested second half of a chain row. */
  datatype Move = Act(event: Event) | Late(id: nat, state: Service.ChainState, now: Time)

  predicate NameTrimmed(m: Move) {
    m.Act? ==> m.event.action.NamesTrimmed()
  }

  predicate AllTrimmed(moves: seq<Move>) {
    forall k :: 0 <= k < |moves| ==> NameTrimmed(moves[k])
  }

  function Made(s: FundState, m: Move): FundState {
    match m
    case Act(e) => Next(s, e.action, e.now)
    case Late(id, state, now) => Forced(s, id, state, now)
  }

  function AfterMoves(s: FundState, moves: seq<Move>): FundState {
    if moves == [] then s else Made(AfterMoves(s, moves[..|moves| - 1]), moves[|moves| - 1])
  }

  lemma MovesStep(s: FundState, moves: seq<Move>, k: nat)
    requires k < |moves|
    ensures AfterMoves(s, moves[..k + 1]) == Made(AfterMoves(s, moves[..k]), moves[k])
  {
    assert moves[..k + 1][..k] == moves[..k];
  }

  predicate SamePlaces(ps: seq<Proposal>, qs: seq<Proposal>) {
    |ps| <= |qs| && forall i :: 0 <= i < |ps| ==> qs[i].id == ps[i].id
  }

  lemma MoveKeepsPlaces(s: FundState, m: Move)
    ensures SamePlaces(s.proposals, Made(s, m).proposals)
  {
    if m.Act? {
      StepEvolves(s, m.event.action, m.event.now);
      var u := Next(s, m.event.action, m.event.now);
      assert forall i :: 0 <= i < |s.proposals| ==> Evolves(s.proposals[i], u.proposals[i]);
    }
  }

  lemma {:induction false} RunKeepsPlaces(s: FundState, moves: seq<Move>)
    ensures SamePlaces(s.proposals, AfterMoves(s, moves).proposals)
  {
    if moves != [] {
      var n := |moves| - 1;
      RunKeepsPlaces(s, moves[..n]);
      MoveKeepsPlaces(AfterMoves(s, moves[..n]), moves[n]);
    }
  }

  /** A proposal keeps its place under its id. */
  lemma {:induction false} SameIndex(ps: seq<Proposal>, qs: seq<Proposal>, id: nat)
    requires SamePlaces(ps, qs)
    requires ProposalIndex(ps, Local(id)).Some?
    ensures ProposalIndex(qs, Local(id)) == ProposalIndex(ps, Local(id))
  {
    if ps[0].id != id {
      SameIndex(ps[1..], qs[1..], id);
    }
  }

  /** What a late move does: the proposal has kept its place r; the move is a legal one if and only if it would still
      pass the test or changes nothing, and then it is the single step. */
  predicate LateMove(s: FundState, t: FundState, id: nat, state: Service.ChainState, now: Time) {
    var r := ProposalIndex(s.proposals, Local(id));
    && r.Some? && r == ProposalIndex(t.proposals, Local(id))
    && (t.proposals[r.value].status == s.proposals[r.value].status ==> Tested(t, id, state))
    && (AllEvolve(t.proposals, Forced(t, id, state, now).proposals)
        <==> Tested(t, id, state) || t.proposals[r.value].status == Service.ChainTarget(state))
    && (Tested(t, id, state) ==> Forced(t, id, state, now) == Next(t, ApplyChainStatus(id, state), now))
  }

  lemma LateMoveAt(s: FundState, t: FundState, id: nat, state: Service.ChainState, now: Time)
    requires Tested(s, id, state) && SamePlaces(s.proposals, t.proposals)
    ensures LateMove(s, t, id, state, now)
  {
    SameIndex(s.proposals, t.proposals, id);
    ForcedEvolvesIff(t, ProposalIndex(s.proposals, Local(id)).value, id, state, now);
    if Tested(t, id, state) {
      ForcedIsStep(t, id, state, now);
    }
  }

  /** Whatever other processes write between the test and the move, late moves of their own among it. */
  lemma LateMoveIsStepIff(s: FundState, between: seq<Move>, id: nat, state: Service.ChainState, now: Time)
    requires Tested(s, id, state)
    ensures LateMove(s, AfterMoves(s, between), id, state, now)
  {
    RunKeepsPlaces(s, between);
    LateMoveAt(s, AfterMoves(s, between), id, state, now);
  }

  lemma ForcedEvolvesIff(t: FundState, r: nat, id: nat, state: Service.ChainState, now: Time)
    requires ProposalIndex(t.proposals, Local(id)) == Some(r) && r < |t.proposals|
    ensures AllEvolve(t.proposals, Forced(t, id, state, now).proposals)
            <==> Tested(t, id, state) || t.proposals[r].status == Service.ChainTarget(state)
  {
    var u := Forced(t, id, state, now);
    assert AllEvolve(t.proposals, u.proposals) ==> Evolves(t.proposals[r], u.proposals[r]);
    assert u.proposals[r].status == Service.ChainTarget(state);
  }

  lemma ForcedAlone(t: FundState, state: Service.ChainState, now: Time)
    requires |t.proposals| == 1 && t.proposals[0].id == 1
    ensures ProposalIndex(t.proposals, Local(1)) == Some(0)
    ensures Forced(t, 1, state, now).proposals[0].status == Service.ChainTarget(state)
  {}

  /** It can happen, on a run from a fresh fund: the row "executed" passes the test, the proposer cancels, and the move
      revives the proposal. */
  lemma LateMoveRevives() returns (s0: FundState, script: Script, e: Event)
    ensures Fresh(s0) && NamesTrimmed(script) && e.action.NamesTrimmed()
    ensures Tested(After(s0, script), 1, Service.ChainExecuted)
    ensures var t := Next(After(s0, script), e.action, e.now);
            && |t.proposals| == 1 && t.proposals[0].status == Cancelled
            && Forced(t, 1, Service.ChainExecuted, 0.0).proposals[0].status == Executed
  {
    NewFundIsFresh();
    s0 := NewFund();
    var p: Proposal;
    script, p := ToApproved();
    var q: Proposal;
    e, q := MoveOn(script, [], p, 2, Cancelled);
    ForcedAlone(Book([], [p], 2), Service.ChainExecuted, 0.0);
    ForcedAlone(Book([], [q], 2), Service.ChainExecuted, 0.0);
  }
}
