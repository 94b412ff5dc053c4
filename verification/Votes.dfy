/** Chat votes and agent reviews over whole runs. */
module Votes {
  import opened Lists
  import opened Text
  import opened FundModel
  import opened Rules
  import opened Protocol
  import opened Evolution
  import opened ChainRace
  import opened Numerals
  import opened Terms
  import opened Service = Service
  import Acceptance
  import Effects
  import Members

  lemma {:induction false} ReviewsMembers(rs: seq<AgentReview>, key: string)
    ensures forall r :: r in ReviewsNotBy(rs, key) <==> r in rs && Lower(r.agent) != key
    ensures DistinctReviewers(rs) ==> DistinctReviewers(ReviewsNotBy(rs, key))
  {
    if rs != [] {
      var n := |rs| - 1;
      ReviewsMembers(rs[..n], key);
      assert rs == rs[..n] + [rs[n]];
      if DistinctReviewers(rs) {
        var w := ReviewsNotBy(rs[..n], key);
        forall i | 0 <= i < |w|
          ensures Lower(w[i].agent) != Lower(rs[n].agent)
        {
          assert w[i] in w;
        }
      }
    }
  }

  predicate DistinctReviewers(rs: seq<AgentReview>) {
    forall i, j :: 0 <= i < j < |rs| ==> Lower(rs[i].agent) != Lower(rs[j].agent)
  }

  /** Nobody is on both sides or twice on one; an agent reviews at most once, and never its own proposal. */
  predicate VotesOk(p: Proposal) {
    && NoDup(p.backers) && NoDup(p.objectors)
    && (forall x :: x in p.backers ==> x !in p.objectors)
    && DistinctReviewers(p.reviews)
    && (forall i :: 0 <= i < |p.reviews| ==> Lower(p.reviews[i].agent) != Lower(p.proposer))
  }

  predicate AllVotesOk(ps: seq<Proposal>) {
    forall i :: 0 <= i < |ps| ==> VotesOk(ps[i])
  }

  /** What one ballot does to the two lists, as sets of voters. */
  lemma BallotMoves(p: Proposal, tid: string, b: Ballot)
    requires VotesOk(p)
    ensures VotesOk(Voted(p, tid, b))
    ensures forall x :: x in Voted(p, tid, b).backers <==> if x == tid then b == Cast(Back) else x in p.backers
    ensures forall x :: x in Voted(p, tid, b).objectors <==> if x == tid then b == Cast(Object) else x in p.objectors
  {
    WithoutMembers(p.backers, tid);
    WithoutMembers(p.objectors, tid);
    WithoutNoDup(p.backers, tid);
    WithoutNoDup(p.objectors, tid);
    var v, w := Without(p.backers, tid), Without(p.objectors, tid);
    assert forall i :: 0 <= i < |v| ==> v[i] in v;
    assert forall i :: 0 <= i < |w| ==> w[i] in w;
  }

  // ----- steps

  predicate SameVotes(p: Proposal, q: Proposal) {
    q.backers == p.backers && q.objectors == p.objectors && q.reviews == p.reviews && q.proposer == p.proposer
  }

  predicate KeepsVotes(s: FundState, o: Outcome, ref: Ref) {
    var r := ProposalIndex(s.proposals, ref);
    o.Done? && r.Some? && |o.state.proposals| == |s.proposals|
    ==> SameVotes(s.proposals[r.value], o.state.proposals[r.value])
  }

  lemma SetStatusKeepsVotes(s: FundState, actor: string, ref: Ref, target: Option<Status>, onchainId: Option<int>, now: Time)
    ensures KeepsVotes(s, Service.SetStatus(s, actor, ref, target, onchainId, now), ref)
  {
    if Service.SetStatus(s, actor, ref, target, onchainId, now).Done? {
      SetStatusDone(s, actor, ref, target, onchainId, now);
    }
  }

  lemma SettleKeepsVotes(s: FundState, actor: string, ref: Ref, pnl: int, now: Time)
    ensures KeepsVotes(s, Service.RecordSettle(s, actor, ref, pnl, now), ref)
  {}

  lemma ReadingKeepsVotes(s: FundState, ref: Ref, x: Reading)
    ensures KeepsVotes(s, Service.SetChainState(s, ref, x), ref)
  {}

  lemma ChainKeepsVotes(s: FundState, id: nat, st: ChainState, now: Time)
    ensures KeepsVotes(s, Service.ApplyChainStatus(s, id, st, now), Local(id))
  {}

  lemma ShipKeepsVotes(s: FundState, ref: Ref, caller: Option<string>, now: Time)
    ensures KeepsVotes(s, Service.ShipDraft(s, ref, caller, now), ref)
  {}

  lemma MoveStepKeepsVotes(s: FundState, a: Action, now: Time)
    requires a.SetStatus? || a.RecordSettle?
    ensures KeepsVotes(s, Apply(s, a, now), RefOf(a))
  {
    if a.SetStatus? {
      SetStatusKeepsVotes(s, a.actor, a.ref, a.target, a.onchainId, now);
    } else {
      SettleKeepsVotes(s, a.actor, a.ref, a.pnl, now);
    }
  }

  lemma ReadStepKeepsVotes(s: FundState, a: Action, now: Time)
    requires a.SetChainState? || a.ApplyChainStatus? || a.ShipDraft?
    ensures KeepsVotes(s, Apply(s, a, now), RefOf(a))
  {
    match a {
      case SetChainState(ref, x) => ReadingKeepsVotes(s, ref, x);
      case ApplyChainStatus(id, st) => ChainKeepsVotes(s, id, st, now);
      case ShipDraft(ref, caller) => ShipKeepsVotes(s, ref, caller, now);
    }
  }

  lemma DraftingKeepsVotes(s: FundState, a: Action, now: Time)
    requires a.DraftProposal? || a.RemoveAgent?
    ensures var t := Next(s, a, now);
            && (forall i :: 0 <= i < |s.proposals| && i < |t.proposals| ==> SameVotes(s.proposals[i], t.proposals[i]))
            && (forall i :: |s.proposals| <= i < |t.proposals| ==>
                  t.proposals[i].backers == [] && t.proposals[i].objectors == [] && t.proposals[i].reviews == [])
  {}

  /** Only a ballot or a review changes the votes on a recorded proposal; a new draft has none. */
  lemma OtherStepsKeepVotes(s: FundState, a: Action, now: Time)
    requires !a.RecordMemberVote? && !a.RecordAgentReview?
    ensures var t := Next(s, a, now);
            && |t.proposals| >= |s.proposals|
            && (forall i :: 0 <= i < |s.proposals| ==> SameVotes(s.proposals[i], t.proposals[i]))
            && (forall i :: |s.proposals| <= i < |t.proposals| ==>
                  t.proposals[i].backers == [] && t.proposals[i].objectors == [] && t.proposals[i].reviews == [])
  {
    if ActsOnOneProposal(a) {
      OneProposalStep(s, a, now);
      if a.SetStatus? || a.RecordSettle? {
        MoveStepKeepsVotes(s, a, now);
      } else {
        ReadStepKeepsVotes(s, a, now);
      }
    } else {
      OtherStep(s, a, now);
      if a.DraftProposal? || a.RemoveAgent? {
        DraftingKeepsVotes(s, a, now);
      }
    }
  }

  lemma ReviewKeepsVotesOk(p: Proposal, name: string, side: Side)
    requires VotesOk(p) && Lower(name) != Lower(p.proposer)
    ensures VotesOk(p.(reviews := ReviewsNotBy(p.reviews, Lower(name)) + [AgentReview(name, side)]))
  {
    ReviewsMembers(p.reviews, Lower(name));
    var w := ReviewsNotBy(p.reviews, Lower(name));
    assert forall i :: 0 <= i < |w| ==> w[i] in w;
  }

  lemma VoteStep(s: FundState, ref: Ref, voter: string, b: Ballot, now: Time)
    requires AllVotesOk(s.proposals) && Service.RecordMemberVote(s, ref, voter, b, now).Done?
    ensures AllVotesOk(Service.RecordMemberVote(s, ref, voter, b, now).state.proposals)
  {
    var r := ProposalIndex(s.proposals, ref).value;
    BallotMoves(s.proposals[r], BallotId(s.members[FindMember(s, voter).value]), b);
  }

  lemma ReviewStep(s: FundState, ref: Ref, agent: string, b: Ballot)
    requires AllVotesOk(s.proposals) && Trimmed(agent) && Service.RecordAgentReview(s, ref, agent, b).Done?
    ensures AllVotesOk(Service.RecordAgentReview(s, ref, agent, b).state.proposals)
  {
    StripTrimmed(agent);
    var r := ProposalIndex(s.proposals, ref).value;
    ReviewKeepsVotesOk(s.proposals[r], s.agents[FindAgent(s, agent).value].name, b.side);
  }

  lemma StepKeepsVotesOk(s: FundState, a: Action, now: Time)
    requires AllVotesOk(s.proposals) && a.NamesTrimmed()
    ensures AllVotesOk(Next(s, a, now).proposals)
  {
    if a.RecordMemberVote? {
      if Apply(s, a, now).Done? {
        VoteStep(s, a.ref, a.voter, a.ballot, now);
      }
    } else if a.RecordAgentReview? {
      if Apply(s, a, now).Done? {
        ReviewStep(s, a.ref, a.agent, a.ballot);
      }
    } else {
      OtherStepsKeepVotes(s, a, now);
    }
  }

  // ----- the last word of every voter

  datatype Entry = Entry(voter: string, ballot: Ballot)

  /** The ballot the step casts on proposal i, if it is an accepted one, under the name of the member who is named. */
  ghost function CastOn(s: FundState, a: Action, now: Time, i: nat): Option<Entry> {
    if a.RecordMemberVote? && Acceptance.BallotTerms(s, a.ref, a.voter, a.ballot, now) && NamesProposal(s, a.ref, i) then
      var k: nat :| NamesMember(s, a.voter, k);
      Some(Entry(Effects.VoterId(s.members[k]), a.ballot))
    else None
  }

  /** What the move casts; a late move casts nothing. */
  ghost function CastIn(s: FundState, m: Move, i: nat): Option<Entry> {
    match m
    case Act(e) => CastOn(s, e.action, e.now, i)
    case Late(_, _, _) => None
  }

  /** The accepted ballots on proposal i, oldest first. */
  ghost function Accepted(s: FundState, moves: seq<Move>, i: nat): seq<Entry> {
    if moves == [] then []
    else
      var n := |moves| - 1;
      var e := CastIn(AfterMoves(s, moves[..n]), moves[n], i);
      Accepted(s, moves[..n], i) + (if e.Some? then [e.value] else [])
  }

  /** A voter's latest entry. */
  function Latest(log: seq<Entry>, voter: string): Option<Ballot> {
    if log == [] then None
    else if log[|log| - 1].voter == voter then Some(log[|log| - 1].ballot)
    else Latest(log[..|log| - 1], voter)
  }

  /** The two lists say exactly what the latest ballots say. */
  ghost predicate Reflects(p: Proposal, log: seq<Entry>) {
    && (forall x :: x in p.backers <==> Latest(log, x) == Some(Cast(Back)))
    && (forall x :: x in p.objectors <==> Latest(log, x) == Some(Cast(Object)))
  }

  lemma LatestSnoc(log: seq<Entry>, e: Entry, x: string)
    ensures Latest(log + [e], x) == if e.voter == x then Some(e.ballot) else Latest(log, x)
  {
    assert (log + [e])[..|log|] == log;
  }

  lemma BallotReflects(p: Proposal, log: seq<Entry>, e: Entry)
    requires VotesOk(p) && Reflects(p, log)
    ensures Reflects(Voted(p, e.voter, e.ballot), log + [e])
  {
    BallotMoves(p, e.voter, e.ballot);
    forall x: string
      ensures Latest(log + [e], x) == if e.voter == x then Some(e.ballot) else Latest(log, x)
    {
      LatestSnoc(log, e, x);
    }
  }

  lemma StepReflects(s: FundState, a: Action, now: Time, i: nat, log: seq<Entry>)
    requires AllVotesOk(s.proposals) && (if i < |s.proposals| then Reflects(s.proposals[i], log) else log == [])
    requires i < |Next(s, a, now).proposals|
    ensures var e := CastOn(s, a, now, i);
            Reflects(Next(s, a, now).proposals[i], log + (if e.Some? then [e.value] else []))
  {
    if a.RecordMemberVote? {
      VoteReflects(s, a, now, i, log);
    } else {
      assert log + [] == log;
      if a.RecordAgentReview? {
        OneProposalStep(s, a, now);
        ReviewKeepsBallots(s, a, now);
      } else {
        OtherStepsKeepVotes(s, a, now);
      }
    }
  }

  lemma VoteReflects(s: FundState, a: Action, now: Time, i: nat, log: seq<Entry>)
    requires AllVotesOk(s.proposals) && i < |s.proposals| && Reflects(s.proposals[i], log) && a.RecordMemberVote?
    ensures |Next(s, a, now).proposals| == |s.proposals|
    ensures var e := CastOn(s, a, now, i);
            Reflects(Next(s, a, now).proposals[i], log + (if e.Some? then [e.value] else []))
  {
    var e := CastOn(s, a, now, i);
    CastIs(s, a.ref, a.voter, a.ballot, now, i);
    if e.Some? {
      BallotReflects(s.proposals[i], log, e.value);
    } else {
      assert log + [] == log;
    }
  }

  lemma CastIs(s: FundState, ref: Ref, voter: string, b: Ballot, now: Time, i: nat)
    requires i < |s.proposals|
    ensures var t, e := Next(s, RecordMemberVote(ref, voter, b), now), CastOn(s, RecordMemberVote(ref, voter, b), now, i);
            && |t.proposals| == |s.proposals|
            && t.proposals[i] == if e.Some? then Voted(s.proposals[i], e.value.voter, e.value.ballot) else s.proposals[i]
  {
    Acceptance.BallotIff(s, ref, voter, b, now);
    FindsProposal(s, ref);
    FindsMember(s, voter);
    if e: nat :| NamesMember(s, voter, e) {
      assert BallotId(s.members[e]) == Effects.VoterId(s.members[e]);
    }
  }

  lemma ReviewKeepsBallots(s: FundState, a: Action, now: Time)
    requires a.RecordAgentReview?
    ensures |Next(s, a, now).proposals| == |s.proposals|
    ensures forall i :: 0 <= i < |s.proposals| ==> Next(s, a, now).proposals[i].backers == s.proposals[i].backers
    ensures forall i :: 0 <= i < |s.proposals| ==> Next(s, a, now).proposals[i].objectors == s.proposals[i].objectors
  {}

  /** Nothing is cast on a proposal before it is recorded. */
  lemma {:induction false} NoEarlyVotes(s: FundState, moves: seq<Move>, i: nat)
    requires i >= |AfterMoves(s, moves).proposals|
    ensures Accepted(s, moves, i) == []
  {
    if moves != [] {
      var n := |moves| - 1;
      MoveKeepsPlaces(AfterMoves(s, moves[..n]), moves[n]);
      NoEarlyVotes(s, moves[..n], i);
    }
  }

  lemma MoveKeepsVotesOk(s: FundState, m: Move)
    requires AllVotesOk(s.proposals) && NameTrimmed(m)
    ensures AllVotesOk(Made(s, m).proposals)
  {
    if m.Act? {
      StepKeepsVotesOk(s, m.event.action, m.event.now);
    }
  }

  lemma MoveReflects(s: FundState, m: Move, i: nat, log: seq<Entry>)
    requires AllVotesOk(s.proposals) && (if i < |s.proposals| then Reflects(s.proposals[i], log) else log == [])
    requires i < |Made(s, m).proposals|
    ensures var e := CastIn(s, m, i);
            Reflects(Made(s, m).proposals[i], log + (if e.Some? then [e.value] else []))
  {
    if m.Act? {
      StepReflects(s, m.event.action, m.event.now, i, log);
    } else {
      assert log + [] == log;
    }
  }

  /** After any run of actions and late moves from a fresh fund, on every proposal: backers and objectors have no duplicates and
      share nobody, and they are exactly the voters whose last accepted ballot backs or objects; reviews are one per agent, none the proposer's. */
  lemma {:induction false} VoteLedger(s: FundState, moves: seq<Move>)
    requires Fresh(s) && AllTrimmed(moves)
    ensures var ps := AfterMoves(s, moves).proposals;
            AllVotesOk(ps) && forall i :: 0 <= i < |ps| ==> Reflects(ps[i], Accepted(s, moves, i))
  {
    if moves != [] {
      var n := |moves| - 1;
      var t := AfterMoves(s, moves[..n]);
      VoteLedger(s, moves[..n]);
      MoveKeepsVotesOk(t, moves[n]);
      forall i: nat | i < |AfterMoves(s, moves).proposals|
        ensures Reflects(AfterMoves(s, moves).proposals[i], Accepted(s, moves, i))
      {
        if i >= |t.proposals| {
          NoEarlyVotes(s, moves[..n], i);
        }
        MoveReflects(t, moves[n], i, Accepted(s, moves[..n], i));
      }
    }
  }

  // ----- whose ballot it is

  /** Nobody is recorded under an id that somebody on record has, and an address on record is a valid one. */
  ghost predicate NamedApart(ms: seq<Member>) {
    && (forall i, j :: 0 <= i < j < |ms| && ms[j].telegramId != "" && Strip(ms[j].telegramId) == ms[j].telegramId ==>
          Lower(ms[i].telegramId) != Lower(ms[j].telegramId))
    && (forall i :: 0 <= i < |ms| && ms[i].address != "" ==> IsAddress(ms[i].address))
  }

  lemma MembersAct(s: FundState, a: Action, now: Time)
    requires NamedApart(s.members) && Apply(s, a, now).Done? && (a.RequestMembership? || a.ApproveMember?)
    ensures NamedApart(Next(s, a, now).members)
  {
    Acceptance.AcceptedIff(s, a, now);
    Effects.EffectIs(s, a, now);
    var t := Next(s, a, now);
    match a {
      case RequestMembership(telegramId, address) => RequestApart(s, telegramId, address, t);
      case ApproveMember(actor, who, address, caller) => ApprovalApart(s, actor, who, address, caller, t);
    }
  }

  lemma RequestApart(s: FundState, telegramId: string, address: string, t: FundState)
    requires NamedApart(s.members) && Acceptance.MembershipTerms(s, telegramId, address)
    requires Effects.MembershipEffect(s, telegramId, address, t)
    ensures NamedApart(t.members)
  {
    Acceptance.KnownIs(s, telegramId, address);
  }

  lemma ApprovalApart(s: FundState, actor: string, who: string, address: string, caller: Option<string>, t: FundState)
    requires NamedApart(s.members) && Acceptance.ApprovalTerms(s, actor, who, address, caller)
    requires Effects.ApprovalEffect(s, who, address, t)
    ensures NamedApart(t.members)
  {
    Acceptance.KnownIs(s, who, address);
  }

  lemma MoveApart(s: FundState, m: Move, t: FundState)
    requires NamedApart(s.members) && t == Made(s, m)
    ensures NamedApart(t.members)
  {
    if m.Act? {
      var a, now := m.event.action, m.event.now;
      if !a.RequestMembership? && !a.ApproveMember? {
        Members.OthersKeepMembers(s, a, now);
      } else if Apply(s, a, now).Done? {
        MembersAct(s, a, now);
      }
    }
  }

  lemma {:induction false} RunApart(s: FundState, moves: seq<Move>)
    requires Fresh(s)
    ensures NamedApart(AfterMoves(s, moves).members)
  {
    if moves != [] {
      var n := |moves| - 1;
      RunApart(s, moves[..n]);
      MoveApart(AfterMoves(s, moves[..n]), moves[n], AfterMoves(s, moves));
    }
  }

  /** The voter gives the id that the member is on record with: a trimmed one, in any case and with any blanks around it, that
      is no address. */
  predicate GivesOwnId(ms: seq<Member>, i: nat, voter: string)
    requires i < |ms|
  {
    var own := ms[i].telegramId;
    own != "" && Strip(own) == own && !IsAddress(Lower(own)) && Lower(Strip(voter)) == Lower(own)
  }

  lemma LowerAddress(a: string)
    ensures IsAddress(a) ==> IsAddress(Lower(a))
  {}

  /** An own id means its owner and nobody else. */
  lemma OwnIdNames(s: FundState, i: nat, voter: string)
    requires NamedApart(s.members) && i < |s.members| && GivesOwnId(s.members, i, voter)
    ensures NamesMember(s, voter, i)
  {
    var own := s.members[i].telegramId;
    assert Strip(voter) != "" by {
      assert |Lower(own)| == |own|;
    }
    forall j: nat | j < i
      ensures !GoesBy(s.members[j], Lower(own))
    {
      LowerAddress(s.members[j].address);
    }
  }

  /** On every run from a fresh fund, late moves included: a ballot that a member casts under its own id is entered under that
      id, whoever else is on record, and it is accepted exactly when the member is approved and the voting is open. */
  lemma OwnBallot(s: FundState, moves: seq<Move>, ref: Ref, voter: string, b: Ballot, now: Time, p: nat, i: nat)
    requires Fresh(s)
    requires var t := AfterMoves(s, moves); i < |t.members| && GivesOwnId(t.members, i, voter)
    ensures var t := AfterMoves(s, moves);
            var e := CastIn(t, Act(Event(RecordMemberVote(ref, voter, b), now)), p);
            && (e.Some? ==> t.members[i].approved && e == Some(Entry(t.members[i].telegramId, b)))
            && (e.Some? <==> t.members[i].approved && !b.Junk? && NamesProposal(t, ref, p) && t.proposals[p].status in {Proposed, Voting}
                             && (t.proposals[p].votingEndsAt.Some? ==> now < t.proposals[p].votingEndsAt.value))
  {
    var t := AfterMoves(s, moves);
    RunApart(s, moves);
    OwnIdNames(t, i, voter);
    OwnCast(t, ref, voter, b, now, p, i);
  }

  lemma OwnCast(t: FundState, ref: Ref, voter: string, b: Ballot, now: Time, p: nat, i: nat)
    requires i < |t.members| && NamesMember(t, voter, i)
    ensures var e := CastOn(t, RecordMemberVote(ref, voter, b), now, p);
            && (e.Some? ==> t.members[i].approved && e == Some(Entry(Effects.VoterId(t.members[i]), b)))
            && (e.Some? <==> t.members[i].approved && !b.Junk? && NamesProposal(t, ref, p) && t.proposals[p].status in {Proposed, Voting}
                             && (t.proposals[p].votingEndsAt.Some? ==> now < t.proposals[p].votingEndsAt.value))
  {
    FindsMember(t, voter);
    FindsProposal(t, ref);
  }
}
