/** Runs in which chain rows are applied as the code applies them: late, without the test. What such a move keeps. */
module Moves {
  import opened Text
  import opened FundModel
  import opened Protocol
  import opened Coordination
  import opened ChainRace
  import Service

  /** Every late move passed its test on some earlier state of the run. */
  ghost predicate TestedBefore(s: FundState, moves: seq<Move>) {
    forall k :: 0 <= k < |moves| && moves[k].Late? ==> TestedUpTo(s, moves, k, moves[k].id, moves[k].state)
  }

  ghost predicate TestedUpTo(s: FundState, moves: seq<Move>, k: nat, id: nat, state: Service.ChainState)
    requires k <= |moves|
  {
    exists j :: 0 <= j <= k && Tested(AfterMoves(s, moves[..j]), id, state)
  }

  // ----- laws of moves

  /** Something that may hold of a fund, the moves in question, and which of them keep it. */
  datatype Law = Law(holds: FundState -> bool, fair: (FundState, Move) -> bool, spares: (FundState, Move) -> bool)

  ghost predicate Exact(law: Law) {
    forall s, m :: law.holds(s) && law.fair(s, m) ==> (law.holds(Made(s, m)) <==> law.spares(s, m))
  }

  ghost predicate AllFair(law: Law, s: FundState, moves: seq<Move>) {
    forall k :: 0 <= k < |moves| ==> law.fair(AfterMoves(s, moves[..k]), moves[k])
  }

  ghost predicate AllSpare(law: Law, s: FundState, moves: seq<Move>) {
    forall k :: 0 <= k < |moves| ==> law.spares(AfterMoves(s, moves[..k]), moves[k])
  }

  ghost predicate HoldsThroughout(law: Law, s: FundState, moves: seq<Move>) {
    forall k :: 0 <= k <= |moves| ==> law.holds(AfterMoves(s, moves[..k]))
  }

  lemma {:induction false} SparedHolds(law: Law, s: FundState, moves: seq<Move>, k: nat)
    requires Exact(law) && law.holds(s) && AllFair(law, s, moves) && AllSpare(law, s, moves) && k <= |moves|
    ensures law.holds(AfterMoves(s, moves[..k]))
  {
    if k > 0 {
      SparedHolds(law, s, moves, k - 1);
      MovesStep(s, moves, k - 1);
      assert law.fair(AfterMoves(s, moves[..k - 1]), moves[k - 1]) && law.spares(AfterMoves(s, moves[..k - 1]), moves[k - 1]);
    }
  }

  /** What is exact of one move is exact of a run: it holds throughout if and only if every move spares it where it is made. */
  lemma RunIff(law: Law, s: FundState, moves: seq<Move>)
    requires Exact(law) && law.holds(s) && AllFair(law, s, moves)
    ensures HoldsThroughout(law, s, moves) <==> AllSpare(law, s, moves)
  {
    if AllSpare(law, s, moves) {
      forall k | 0 <= k <= |moves|
        ensures law.holds(AfterMoves(s, moves[..k]))
      {
        SparedHolds(law, s, moves, k);
      }
    }
    if HoldsThroughout(law, s, moves) {
      forall k | 0 <= k < |moves|
        ensures law.spares(AfterMoves(s, moves[..k]), moves[k])
      {
        MovesStep(s, moves, k);
        assert law.holds(AfterMoves(s, moves[..k])) && law.holds(AfterMoves(s, moves[..k + 1]));
        assert law.fair(AfterMoves(s, moves[..k]), moves[k]);
      }
    }
  }

  // ----- the quotas

  predicate ClaimBy(claims: seq<Claim>, key: string) {
    exists i :: 0 <= i < |claims| && Lower(claims[i].agent) == key
  }

  /** There is a free slot for one more open proposal of this agent. */
  predicate SlotFor(s: FundState, key: string) {
    && OpenCountOf(s.proposals, key) == 0 && !ClaimBy(s.claims, key)
    && OpenCount(s.proposals) + |s.claims| < MAX_OPEN_PER_FUND
  }

  /** The move opens no proposal anew, or there is a slot for it. */
  predicate Harmless(s: FundState, id: nat, state: Service.ChainState) {
    var r := ProposalIndex(s.proposals, Local(id));
    r.Some? ==>
      IsOpen(s.proposals[r.value].status) || state == Service.Rejected || SlotFor(s, Lower(s.proposals[r.value].proposer))
  }

  lemma {:induction false} OpenCountUpdate(ps: seq<Proposal>, r: nat, q: Proposal)
    requires r < |ps|
    ensures OpenCount(ps[r := q])
            == OpenCount(ps) - (if IsOpen(ps[r].status) then 1 else 0) + (if IsOpen(q.status) then 1 else 0)
  {
    var n := |ps| - 1;
    if r == n {
      assert ps[r := q][..n] == ps[..n];
    } else {
      OpenCountUpdate(ps[..n], r, q);
      assert ps[r := q][..n] == ps[..n][r := q];
    }
  }

  /** A proposal that was open stays, or one that is closed now: the seats stay as they are. */
  lemma SeatsKept(claims: seq<Claim>, ps: seq<Proposal>, r: nat, q: Proposal)
    requires Seats(claims, ps) && r < |ps| && q.proposer == ps[r].proposer && (IsOpen(ps[r].status) || !IsOpen(q.status))
    ensures Seats(claims, ps[r := q])
  {
    OpenCountUpdate(ps, r, q);
    var qs := ps[r := q];
    assert forall i :: 0 <= i < |qs| && IsOpen(qs[i].status) ==> IsOpen(ps[i].status) && qs[i].proposer == ps[i].proposer;
  }

  lemma SlotGivesSeats(claims: seq<Claim>, ps: seq<Proposal>, r: nat, q: Proposal)
    requires Seats(claims, ps) && r < |ps| && q.proposer == ps[r].proposer && !IsOpen(ps[r].status) && IsOpen(q.status)
    requires OpenCountOf(ps, Lower(q.proposer)) == 0 && !ClaimBy(claims, Lower(q.proposer))
    requires OpenCount(ps) + |claims| < MAX_OPEN_PER_FUND
    ensures Seats(claims, ps[r := q])
  {
    OpenCountUpdate(ps, r, q);
    OpenCountOfZero(ps, Lower(q.proposer));
  }

  lemma SeatsNeedSlot(claims: seq<Claim>, ps: seq<Proposal>, r: nat, q: Proposal)
    requires r < |ps| && q.proposer == ps[r].proposer && !IsOpen(ps[r].status) && IsOpen(q.status)
    requires Seats(claims, ps[r := q])
    ensures OpenCountOf(ps, Lower(q.proposer)) == 0 && !ClaimBy(claims, Lower(q.proposer))
    ensures OpenCount(ps) + |claims| < MAX_OPEN_PER_FUND
  {
    OpenCountUpdate(ps, r, q);
    var qs := ps[r := q];
    forall j | 0 <= j < |ps|
      ensures !OpenFor(ps[j], Lower(q.proposer))
    {
      assert j != r ==> qs[j] == ps[j] && qs[r] == q;
    }
    OpenCountOfZero(ps, Lower(q.proposer));
    assert OpenFor(qs[r], Lower(q.proposer));
  }

  /** A late move keeps the quotas and all the rest of the invariant if and only if it is harmless: its proposal is
      still open, or it is a veto, or the proposer has no other open proposal and no claim and the fund has room. */
  lemma LateKeepsInvIff(s: FundState, id: nat, state: Service.ChainState, now: Time)
    requires Inv(s)
    ensures Inv(Forced(s, id, state, now)) <==> Harmless(s, id, state)
  {
    var r := ProposalIndex(s.proposals, Local(id));
    if r.Some? {
      var p := s.proposals[r.value];
      var q := p.(status := Service.ChainTarget(state));
      if IsOpen(p.status) || !IsOpen(q.status) {
        SeatsKept(s.claims, s.proposals, r.value, q);
      } else {
        if Harmless(s, id, state) {
          SlotGivesSeats(s.claims, s.proposals, r.value, q);
        }
        if Seats(s.claims, s.proposals[r.value := q]) {
          SeatsNeedSlot(s.claims, s.proposals, r.value, q);
        }
      }
    }
  }

  ghost predicate AllHarmless(s: FundState, moves: seq<Move>) {
    forall k :: 0 <= k < |moves| && moves[k].Late? ==> Harmless(AfterMoves(s, moves[..k]), moves[k].id, moves[k].state)
  }

  lemma MadeKeepsInvIff(s: FundState, m: Move)
    requires Inv(s) && NameTrimmed(m)
    ensures Inv(Made(s, m)) <==> (m.Late? ==> Harmless(s, m.id, m.state))
  {
    match m {
      case Act(e) => StepKeepsInv(s, e.action, e.now);
      case Late(id, state, now) => LateKeepsInvIff(s, id, state, now);
    }
  }

  /** The quotas: every move in question has trimmed names, and of those exactly the late ones that are not harmless break
      them. */
  ghost function QuotaLaw(): Law {
    Law((s: FundState) => Inv(s), (s: FundState, m: Move) => NameTrimmed(m),
        (s: FundState, m: Move) => m.Late? ==> Harmless(s, m.id, m.state))
  }

  lemma QuotaLawIsExact()
    ensures Exact(QuotaLaw())
  {
    var law := QuotaLaw();
    forall s: FundState, m: Move | law.holds(s) && law.fair(s, m)
      ensures law.holds(Made(s, m)) <==> law.spares(s, m)
    {
      MadeKeepsInvIff(s, m);
    }
  }

  /** The quotas hold in every state of a run if and only if every late move of it is harmless when it is made. */
  lemma RunQuotasIff(s: FundState, moves: seq<Move>)
    requires Inv(s) && AllTrimmed(moves)
    ensures (forall k :: 0 <= k <= |moves| ==> Inv(AfterMoves(s, moves[..k]))) <==> AllHarmless(s, moves)
  {
    var law := QuotaLaw();
    QuotaLawIsExact();
    assert AllFair(law, s, moves);
    RunIff(law, s, moves);
    assert AllHarmless(s, moves) <==> AllSpare(law, s, moves);
    assert (forall k :: 0 <= k <= |moves| ==> Inv(AfterMoves(s, moves[..k]))) <==> HoldsThroughout(law, s, moves);
  }

  lemma HarmlessKeepsInv(s: FundState, moves: seq<Move>, k: nat)
    requires Inv(s) && AllTrimmed(moves) && AllHarmless(s, moves) && k <= |moves|
    ensures Inv(AfterMoves(s, moves[..k]))
  {
    RunQuotasIff(s, moves);
  }

  // ----- when such a run is a run of the protocol

  /** Every late move would still pass its test when it is made. */
  ghost predicate AllInTime(s: FundState, moves: seq<Move>) {
    forall k :: 0 <= k < |moves| && moves[k].Late? ==> Tested(AfterMoves(s, moves[..k]), moves[k].id, moves[k].state)
  }

  function AsEvent(m: Move): Event {
    match m
    case Act(e) => e
    case Late(id, state, now) => Event(ApplyChainStatus(id, state), now)
  }

  function AsScript(moves: seq<Move>): Script {
    seq(|moves|, k requires 0 <= k < |moves| => AsEvent(moves[k]))
  }

  function Acts(script: Script): seq<Move> {
    seq(|script|, k requires 0 <= k < |script| => Act(script[k]))
  }

  /** A run of single steps is a run of moves. */
  lemma {:induction false} ScriptIsMoves(s: FundState, script: Script)
    ensures AfterMoves(s, Acts(script)) == After(s, script)
    ensures NamesTrimmed(script) ==> AllTrimmed(Acts(script))
  {
    if script != [] {
      var n := |script| - 1;
      ScriptIsMoves(s, script[..n]);
      assert Acts(script)[..n] == Acts(script[..n]);
    }
  }

  lemma OneMoreMove(s: FundState, moves: seq<Move>, m: Move)
    ensures AfterMoves(s, moves + [m]) == Made(AfterMoves(s, moves), m)
  {
    assert (moves + [m])[..|moves|] == moves;
  }

  lemma InTimeStep(s: FundState, m: Move)
    requires m.Late? ==> Tested(s, m.id, m.state)
    ensures Made(s, m) == Next(s, AsEvent(m).action, AsEvent(m).now)
  {
    if m.Late? {
      ForcedIsStep(s, m.id, m.state, m.now);
    }
  }

  lemma {:induction false} InTimeAt(s: FundState, moves: seq<Move>, k: nat)
    requires AllInTime(s, moves) && k <= |moves|
    ensures AfterMoves(s, moves[..k]) == At(s, AsScript(moves), k)
  {
    if k > 0 {
      InTimeAt(s, moves, k - 1);
      MovesStep(s, moves, k - 1);
      AtStep(s, AsScript(moves), k - 1);
      InTimeStep(AfterMoves(s, moves[..k - 1]), moves[k - 1]);
    }
  }

  /** Then the run is one of single steps, and all that is proved of those holds of it. */
  lemma InTimeIsRun(s: FundState, moves: seq<Move>)
    requires AllInTime(s, moves)
    ensures AfterMoves(s, moves) == After(s, AsScript(moves))
    ensures AllTrimmed(moves) ==> NamesTrimmed(AsScript(moves))
  {
    var script := AsScript(moves);
    InTimeAt(s, moves, |moves|);
    AllSteps(moves);
    AllSteps(script);
    if AllTrimmed(moves) {
      TrimmedScript(moves);
    }
  }

  lemma AllSteps<T>(xs: seq<T>)
    ensures xs[..|xs|] == xs
  {}

  lemma TrimmedScript(moves: seq<Move>)
    requires AllTrimmed(moves)
    ensures NamesTrimmed(AsScript(moves))
  {
    forall k | 0 <= k < |moves|
      ensures AsScript(moves)[k].action.NamesTrimmed()
    {
      assert NameTrimmed(moves[k]);
    }
  }
}
