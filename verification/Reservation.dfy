/** A live claim reserves its holder's draft: short of removing the agent or a harmful late chain move, nothing the others do
    can take that away before the claim expires. */
module Reservation {
  import opened Text
  import opened Topics
  import opened FundModel
  import opened Rules
  import opened Protocol
  import opened Evolution
  import opened ChainRace
  import opened Coordination
  import opened Moves
  import opened Terms
  import Refusals
  import Service

  predicate IsHolding(c: Claim, key: string, topicKey: string, until: Time) {
    Lower(c.agent) == key && Normalize(c.topic) == topicKey && c.expiresAt >= until
  }

  /** The agent `key` holds a claim on the topic that lives at least until `until`. */
  ghost predicate Holds(claims: seq<Claim>, key: string, topicKey: string, until: Time) {
    exists c :: c in claims && IsHolding(c, key, topicKey, until)
  }

  /** The three ways a claim can end early: the holder releases it, the host removes the holder,
      or the holder's draft goes through. */
  ghost predicate Ends(s: FundState, a: Action, now: Time, key: string, topicKey: string) {
    match a
    case ReleaseClaim(agent, topic) => Lower(agent) == key && (topic == "" || Normalize(topic) == topicKey)
    case RemoveAgent(_, name, _) =>
      Apply(s, a, now).Done? && FindTarget(s, name).Some? && Lower(s.agents[FindTarget(s, name).value].name) == key
    case DraftProposal(agent, _) => Lower(agent) == key && Apply(s, a, now).Done?
    case _ => false
  }

  /** The holder's own claim or draft request, which sets the expiry anew. */
  predicate Renews(a: Action, key: string) {
    (a.ClaimTopic? || a.RequestDraft?) && Lower(a.agent) == key
  }

  // ----- agents and claims without the quotas

  /** What the invariant says of agents and claims alone; late moves do not touch it. */
  ghost predicate Roster(s: FundState) {
    && NamesOk(s.agents) && ClaimsOwned(s.claims, s.agents) && DistinctAgents(s.claims) && DistinctTopics(s.claims)
    && |s.claims| <= MAX_OPEN_PER_FUND
  }

  function Unproposed(s: FundState): FundState {
    s.(proposals := [])
  }

  lemma RosterIs(s: FundState)
    ensures Roster(s) <==> Inv(Unproposed(s))
    ensures Inv(s) ==> Roster(s)
  {}

  // what is allowed is allowed in a fund without proposals

  lemma ClaimUnproposed(s: FundState, agent: string, topic: string, now: Time)
    ensures SameRoster(Service.ClaimTopic(s, agent, topic, now), Service.ClaimTopic(Unproposed(s), agent, topic, now))
  {}

  lemma RequestUnproposed(s: FundState, agent: string, ideaBy: string, topic: string, now: Time)
    ensures SameRoster(Service.RequestDraft(s, agent, ideaBy, topic, now), Service.RequestDraft(Unproposed(s), agent, ideaBy, topic, now))
  {}

  lemma DraftUnproposed(s: FundState, agent: string, b: Brief, now: Time)
    ensures SameRoster(Service.DraftProposal(s, agent, b, now), Service.DraftProposal(Unproposed(s), agent, b, now))
  {}

  lemma JoinUnproposed(s: FundState, name: string, identityId: string, address: string)
    ensures SameRoster(Service.RequestAgent(s, name, identityId, address), Service.RequestAgent(Unproposed(s), name, identityId, address))
  {}

  lemma ApproveUnproposed(s: FundState, actor: string, name: string, landed: bool, caller: Option<string>)
    ensures SameRoster(Service.ApproveAgent(s, actor, name, landed, caller),
                       Service.ApproveAgent(Unproposed(s), actor, name, landed, caller))
  {}

  lemma RemoveUnproposed(s: FundState, actor: string, name: string, caller: Option<string>)
    ensures SameRoster(Service.RemoveAgent(s, actor, name, caller), Service.RemoveAgent(Unproposed(s), actor, name, caller))
  {}

  /** If the one goes through, so does the other, with the same agents and claims. */
  predicate SameRoster(o: Outcome, p: Outcome) {
    o.Done? ==> p.Done? && p.state.claims == o.state.claims && p.state.agents == o.state.agents
  }

  lemma StepUnproposed(s: FundState, a: Action, now: Time)
    requires MovesAgents(a) || MovesClaims(a)
    ensures SameRoster(Apply(s, a, now), Apply(Unproposed(s), a, now))
  {
    match a {
      case ClaimTopic(agent, topic) => ClaimUnproposed(s, agent, topic, now);
      case RequestDraft(agent, ideaBy, topic) => RequestUnproposed(s, agent, ideaBy, topic, now);
      case DraftProposal(agent, b) => DraftUnproposed(s, agent, b, now);
      case ReleaseClaim(_, _) =>
      case RequestAgent(name, identityId, address) => JoinUnproposed(s, name, identityId, address);
      case ApproveAgent(actor, name, landed, caller) => ApproveUnproposed(s, actor, name, landed, caller);
      case RemoveAgent(actor, name, caller) => RemoveUnproposed(s, actor, name, caller);
    }
  }

  /** Every action keeps the roster, whatever the proposals. */
  lemma StepKeepsRoster(s: FundState, a: Action, now: Time)
    requires Roster(s) && a.NamesTrimmed()
    ensures Roster(Next(s, a, now))
  {
    if Apply(s, a, now).Done? {
      if MovesAgents(a) || MovesClaims(a) {
        StepUnproposed(s, a, now);
        RosterIs(s);
        StepKeepsInv(Unproposed(s), a, now);
        RosterIs(Next(Unproposed(s), a, now));
      } else if ActsOnOneProposal(a) {
        OneProposalStep(s, a, now);
      } else {
        OtherStep(s, a, now);
      }
    }
  }

  lemma LiveKeepsRoster(s: FundState, now: Time)
    requires Roster(s)
    ensures Roster(s.(claims := ActiveClaims(s.claims, now)))
  {
    RosterIs(s);
    LiveKeepsInv(Unproposed(s), now);
    RosterIs(s.(claims := ActiveClaims(s.claims, now)));
  }

  // ----- what keeps a claim

  lemma SelectKeepsHolding(claims: seq<Claim>, t: ClaimTest, key: string, topicKey: string, until: Time)
    requires Holds(claims, key, topicKey, until)
    requires forall c :: c in claims && IsHolding(c, key, topicKey, until) ==> Passes(c, t)
    ensures Holds(Select(claims, t), key, topicKey, until)
  {
    SelectMembers(claims, t);
    var c :| c in claims && IsHolding(c, key, topicKey, until);
    assert c in Select(claims, t);
  }

  lemma LiveKeepsHolding(claims: seq<Claim>, key: string, topicKey: string, until: Time, now: Time)
    requires Holds(claims, key, topicKey, until) && now < until
    ensures Holds(ActiveClaims(claims, now), key, topicKey, until)
  {
    SelectKeepsHolding(claims, Live(now), key, topicKey, until);
  }

  lemma RefreshKeepsHolding(claims: seq<Claim>, who: string, key: string, topicKey: string, until: Time, now: Time)
    requires Holds(claims, key, topicKey, until) && (who == key ==> until <= now + CLAIM_TTL)
    ensures Holds(Service.RefreshClaim(claims, who, now), key, topicKey, until)
  {
    RefreshOnlyExpiry(claims, who, now);
    var c :| c in claims && IsHolding(c, key, topicKey, until);
    var i :| 0 <= i < |claims| && claims[i] == c;
    var r := Service.RefreshClaim(claims, who, now);
    assert IsHolding(r[i], key, topicKey, until) && r[i] in r;
  }

  /** The only claim of an agent is the one `claim_of` finds. */
  lemma OwnClaim(claims: seq<Claim>, key: string, topicKey: string, until: Time, now: Time)
    requires DistinctAgents(claims) && Holds(claims, key, topicKey, until) && now < until
    ensures ClaimOf(claims, key, now).Some? && IsHolding(ClaimOf(claims, key, now).value, key, topicKey, until)
  {
    var c :| c in claims && IsHolding(c, key, topicKey, until);
    var i :| 0 <= i < |claims| && claims[i] == c;
    var d := ClaimOf(claims, key, now).value;
    var j :| 0 <= j < |claims| && claims[j] == d;
    assert i == j;
  }

  lemma ClaimTopicKeepsHolding(s: FundState, agent: string, topic: string, now: Time, key: string, topicKey: string, until: Time)
    requires Holds(s.claims, key, topicKey, until) && now < until && (Lower(agent) == key ==> until <= now + CLAIM_TTL)
    requires Service.ClaimTopic(s, agent, topic, now).Done?
    ensures Holds(Service.ClaimTopic(s, agent, topic, now).state.claims, key, topicKey, until)
  {
    var live := ActiveClaims(s.claims, now);
    LiveKeepsHolding(s.claims, key, topicKey, until, now);
    if ClaimOf(live, Lower(agent), now).Some? {
      RefreshKeepsHolding(live, Lower(agent), key, topicKey, until, now);
    } else {
      var c :| c in live && IsHolding(c, key, topicKey, until);
      assert c in Service.ClaimTopic(s, agent, topic, now).state.claims;
    }
  }

  /** An agent's claim replaced by a new one. */
  lemma ReplacedKeepsHolding(claims: seq<Claim>, c: Claim, key: string, topicKey: string, until: Time)
    requires Holds(claims, key, topicKey, until)
    requires Lower(c.agent) == key ==> IsHolding(c, key, topicKey, until)
    ensures Holds(Select(claims, NotOf(Lower(c.agent))) + [c], key, topicKey, until)
  {
    var t := Select(claims, NotOf(Lower(c.agent))) + [c];
    assert t[|t| - 1] == c;
    if Lower(c.agent) != key {
      SelectKeepsHolding(claims, NotOf(Lower(c.agent)), key, topicKey, until);
      var d :| d in Select(claims, NotOf(Lower(c.agent))) && IsHolding(d, key, topicKey, until);
      assert d in t;
    }
  }

  lemma OwnTopicChecked(s: FundState, agent: string, topic: string, now: Time)
    requires CheckClaim(s, agent, topic, now) == Allow && ClaimOf(s.claims, Lower(agent), now).Some?
    ensures Normalize(ClaimOf(s.claims, Lower(agent), now).value.topic) == Normalize(topic)
  {}

  lemma RequestDraftKeepsHolding(s: FundState, agent: string, ideaBy: string, topic: string, now: Time,
                                 key: string, topicKey: string, until: Time)
    requires Roster(s) && Trimmed(agent) && Holds(s.claims, key, topicKey, until)
    requires now < until && (Lower(agent) == key ==> until <= now + CLAIM_TTL)
    requires Service.RequestDraft(s, agent, ideaBy, topic, now).Done?
    ensures Holds(Service.RequestDraft(s, agent, ideaBy, topic, now).state.claims, key, topicKey, until)
  {
    var live := s.(claims := ActiveClaims(s.claims, now));
    LiveKeepsHolding(s.claims, key, topicKey, until, now);
    LiveKeepsRoster(s, now);
    CheckClaimFacts(live, agent, Strip(topic), now);
    var name := live.agents[FindAgent(live, agent).value].name;
    var c := Claim(name, Strip(topic), now + CLAIM_TTL, ideaBy);
    if Lower(agent) == key {
      OwnClaim(live.claims, key, topicKey, until, now);
      OwnTopicChecked(live, agent, Strip(topic), now);
    }
    ReplacedKeepsHolding(live.claims, c, key, topicKey, until);
  }

  lemma ReleaseKeepsHolding(s: FundState, agent: string, topic: string, now: Time, key: string, topicKey: string, until: Time)
    requires Holds(s.claims, key, topicKey, until) && now < until
    requires !(Lower(agent) == key && (topic == "" || Normalize(topic) == topicKey))
    ensures Holds(Service.ReleaseClaim(s, agent, topic, now).state.claims, key, topicKey, until)
  {
    LiveKeepsHolding(s.claims, key, topicKey, until, now);
    SelectKeepsHolding(ActiveClaims(s.claims, now), NotReleased(agent, topic), key, topicKey, until);
  }

  lemma DraftKeepsHolding(s: FundState, agent: string, b: Brief, now: Time, key: string, topicKey: string, until: Time)
    requires Trimmed(agent) && Holds(s.claims, key, topicKey, until) && now < until && Lower(agent) != key
    requires Service.DraftProposal(s, agent, b, now).Done?
    ensures Holds(Service.DraftProposal(s, agent, b, now).state.claims, key, topicKey, until)
  {
    LiveKeepsHolding(s.claims, key, topicKey, until, now);
    CheckDraftFacts(s.(claims := ActiveClaims(s.claims, now)), agent, b, now);
    SelectKeepsHolding(ActiveClaims(s.claims, now), NotOf(Lower(agent)), key, topicKey, until);
  }

  lemma RemoveKeepsHolding(s: FundState, actor: string, name: string, caller: Option<string>,
                           key: string, topicKey: string, until: Time)
    requires Holds(s.claims, key, topicKey, until) && Service.RemoveAgent(s, actor, name, caller).Done?
    requires FindTarget(s, name).Some? ==> Lower(s.agents[FindTarget(s, name).value].name) != key
    ensures Holds(Service.RemoveAgent(s, actor, name, caller).state.claims, key, topicKey, until)
  {
    var gone := Lower(s.agents[FindTarget(s, name).value].name);
    SelectKeepsHolding(s.claims, NotOf(gone), key, topicKey, until);
  }

  lemma OtherStepKeepsClaims(s: FundState, a: Action, now: Time)
    requires !MovesClaims(a)
    ensures Next(s, a, now).claims == s.claims
  {
    if ActsOnOneProposal(a) {
      OneProposalStep(s, a, now);
    } else {
      OtherStep(s, a, now);
    }
  }

  lemma ClaimStepKeepsHolding(s: FundState, a: Action, now: Time, key: string, topicKey: string, until: Time)
    requires Roster(s) && a.NamesTrimmed() && Holds(s.claims, key, topicKey, until)
    requires now < until && (Renews(a, key) ==> until <= now + CLAIM_TTL) && !Ends(s, a, now, key, topicKey)
    requires (a.ClaimTopic? || a.RequestDraft? || a.DraftProposal?) && Apply(s, a, now).Done?
    ensures Holds(Next(s, a, now).claims, key, topicKey, until)
  {
    match a {
      case ClaimTopic(agent, topic) => ClaimTopicKeepsHolding(s, agent, topic, now, key, topicKey, until);
      case RequestDraft(agent, ideaBy, topic) => RequestDraftKeepsHolding(s, agent, ideaBy, topic, now, key, topicKey, until);
      case DraftProposal(agent, b) => DraftKeepsHolding(s, agent, b, now, key, topicKey, until);
    }
  }

  lemma DropStepKeepsHolding(s: FundState, a: Action, now: Time, key: string, topicKey: string, until: Time)
    requires Holds(s.claims, key, topicKey, until) && now < until && !Ends(s, a, now, key, topicKey)
    requires (a.ReleaseClaim? || a.RemoveAgent?) && Apply(s, a, now).Done?
    ensures Holds(Next(s, a, now).claims, key, topicKey, until)
  {
    match a {
      case ReleaseClaim(agent, topic) => ReleaseKeepsHolding(s, agent, topic, now, key, topicKey, until);
      case RemoveAgent(actor, name, caller) => RemoveKeepsHolding(s, actor, name, caller, key, topicKey, until);
    }
  }

  /** One step by anybody, at a reading before the expiry, that does not end the claim: it is still held. */
  lemma StepKeepsHolding(s: FundState, a: Action, now: Time, key: string, topicKey: string, until: Time)
    requires Roster(s) && a.NamesTrimmed() && Holds(s.claims, key, topicKey, until)
    requires now < until && (Renews(a, key) ==> until <= now + CLAIM_TTL) && !Ends(s, a, now, key, topicKey)
    ensures Holds(Next(s, a, now).claims, key, topicKey, until)
  {
    if !MovesClaims(a) {
      OtherStepKeepsClaims(s, a, now);
    } else if Apply(s, a, now).Done? {
      if a.ReleaseClaim? || a.RemoveAgent? {
        DropStepKeepsHolding(s, a, now, key, topicKey, until);
      } else {
        ClaimStepKeepsHolding(s, a, now, key, topicKey, until);
      }
    }
  }

  /** A move that does not end the claim: an action with a reading before the expiry (and, if it renews the claim, not
      before the claim was made), or any late move. */
  ghost predicate Fair(s: FundState, m: Move, key: string, topicKey: string, until: Time) {
    match m
    case Act(e) =>
      && e.action.NamesTrimmed() && e.now < until && (Renews(e.action, key) ==> until <= e.now + CLAIM_TTL)
      && !Ends(s, e.action, e.now, key, topicKey)
    case Late(_, _, _) => true
  }

  ghost predicate AllFairTo(s: FundState, moves: seq<Move>, key: string, topicKey: string, until: Time) {
    forall k :: 0 <= k < |moves| ==> Fair(AfterMoves(s, moves[..k]), moves[k], key, topicKey, until)
  }

  lemma MoveKeepsHolding(s: FundState, m: Move, key: string, topicKey: string, until: Time)
    requires Roster(s) && Holds(s.claims, key, topicKey, until) && Fair(s, m, key, topicKey, until)
    ensures Roster(Made(s, m)) && Holds(Made(s, m).claims, key, topicKey, until)
  {
    if m.Act? {
      StepKeepsRoster(s, m.event.action, m.event.now);
      StepKeepsHolding(s, m.event.action, m.event.now, key, topicKey, until);
    }
  }

  lemma {:induction false} RunKeepsHolding(s: FundState, moves: seq<Move>, k: nat, key: string, topicKey: string, until: Time)
    requires Roster(s) && Holds(s.claims, key, topicKey, until) && AllFairTo(s, moves, key, topicKey, until) && k <= |moves|
    ensures Roster(AfterMoves(s, moves[..k])) && Holds(AfterMoves(s, moves[..k]).claims, key, topicKey, until)
  {
    if k > 0 {
      RunKeepsHolding(s, moves, k - 1, key, topicKey, until);
      HeldOneMore(s, moves, k - 1, AfterMoves(s, moves[..k - 1]), key, topicKey, until);
    }
  }

  lemma HeldOneMore(s: FundState, moves: seq<Move>, k: nat, t: FundState, key: string, topicKey: string, until: Time)
    requires k < |moves| && t == AfterMoves(s, moves[..k]) && Fair(t, moves[k], key, topicKey, until)
    requires Roster(t) && Holds(t.claims, key, topicKey, until)
    ensures Roster(AfterMoves(s, moves[..k + 1])) && Holds(AfterMoves(s, moves[..k + 1]).claims, key, topicKey, until)
  {
    MovesStep(s, moves, k);
    MoveKeepsHolding(t, moves[k], key, topicKey, until);
  }

  // ----- what keeps a slot for the holder

  /** The holder has no open proposal, and the fund has room for one. */
  predicate QuotaFree(ps: seq<Proposal>, key: string) {
    OpenCountOf(ps, key) == 0 && OpenCount(ps) < MAX_OPEN_PER_FUND
  }

  /** The agent has a claim that reserves its draft. */
  ghost predicate Reserved(s: FundState, key: string, topicKey: string, until: Time) {
    Roster(s) && Holds(s.claims, key, topicKey, until) && QuotaFree(s.proposals, key)
  }

  /** The move leaves the holder its slot. A late move does if its proposal is still open, or it is a veto, or its proposer
      is another agent and there is room for one more; an action does unless it is a draft that takes the last slot. */
  predicate SparesHolder(s: FundState, m: Move, key: string) {
    match m
    case Act(e) => e.action.DraftProposal? && Apply(s, e.action, e.now).Done? ==> OpenCount(s.proposals) + 1 < MAX_OPEN_PER_FUND
    case Late(id, state, _) =>
      var r := ProposalIndex(s.proposals, Local(id));
      r.Some? ==>
        || IsOpen(s.proposals[r.value].status) || state == Service.Rejected
        || (Lower(s.proposals[r.value].proposer) != key && OpenCount(s.proposals) + 1 < MAX_OPEN_PER_FUND)
  }

  lemma OthersDraftIff(s: FundState, agent: string, b: Brief, now: Time, key: string)
    requires Trimmed(agent) && Lower(agent) != key && QuotaFree(s.proposals, key) && Service.DraftProposal(s, agent, b, now).Done?
    ensures QuotaFree(Service.DraftProposal(s, agent, b, now).state.proposals, key) <==> OpenCount(s.proposals) + 1 < MAX_OPEN_PER_FUND
  {
    var live := s.(claims := ActiveClaims(s.claims, now));
    CheckDraftFacts(live, agent, b, now);
    var p := Service.DraftRecord(live, agent, b, now);
    assert (s.proposals + [p])[..|s.proposals|] == s.proposals;
  }

  lemma EvolvingKeepsFree(ps: seq<Proposal>, qs: seq<Proposal>, key: string)
    requires QuotaFree(ps, key) && |ps| == |qs| && AllEvolve(ps, qs)
    ensures QuotaFree(qs, key)
  {
    OpenCountEvolves(ps, qs);
    OpenCountOfZero(ps, key);
    OpenCountOfZero(qs, key);
    assert forall i :: 0 <= i < |ps| ==> qs[i].proposer == ps[i].proposer && (IsOpen(qs[i].status) ==> IsOpen(ps[i].status));
  }

  lemma ActionFreeIff(s: FundState, a: Action, now: Time, key: string, topicKey: string)
    requires a.NamesTrimmed() && QuotaFree(s.proposals, key) && !Ends(s, a, now, key, topicKey)
    ensures QuotaFree(Next(s, a, now).proposals, key) <==> SparesHolder(s, Act(Event(a, now)), key)
  {
    if a.DraftProposal? {
      if Apply(s, a, now).Done? {
        OthersDraftIff(s, a.agent, a.brief, now, key);
      }
    } else {
      StepEvolves(s, a, now);
      if ActsOnOneProposal(a) {
        OneProposalStep(s, a, now);
      } else {
        OtherStep(s, a, now);
      }
      EvolvingKeepsFree(s.proposals, Next(s, a, now).proposals, key);
    }
  }

  lemma LateFreeIff(s: FundState, id: nat, state: Service.ChainState, now: Time, key: string)
    requires QuotaFree(s.proposals, key)
    ensures QuotaFree(Forced(s, id, state, now).proposals, key) <==> SparesHolder(s, Late(id, state, now), key)
  {
    var r := ProposalIndex(s.proposals, Local(id));
    if r.Some? {
      var q := s.proposals[r.value].(status := Service.ChainTarget(state));
      OpenCountUpdate(s.proposals, r.value, q);
      OpenCountOfUpdate(s.proposals, r.value, q, key);
      OpenCountOfZero(s.proposals, key);
    }
  }

  lemma {:induction false} OpenCountOfUpdate(ps: seq<Proposal>, r: nat, q: Proposal, key: string)
    requires r < |ps|
    ensures OpenCountOf(ps[r := q], key)
            == OpenCountOf(ps, key) - (if OpenFor(ps[r], key) then 1 else 0) + (if OpenFor(q, key) then 1 else 0)
  {
    var n := |ps| - 1;
    if r == n {
      assert ps[r := q][..n] == ps[..n];
    } else {
      OpenCountOfUpdate(ps[..n], r, q, key);
      assert ps[r := q][..n] == ps[..n][r := q];
    }
  }

  ghost function ReservationLaw(key: string, topicKey: string, until: Time): Law {
    Law((s: FundState) => Reserved(s, key, topicKey, until), (s: FundState, m: Move) => Fair(s, m, key, topicKey, until),
        (s: FundState, m: Move) => SparesHolder(s, m, key))
  }

  lemma MoveKeepsReservedIff(s: FundState, m: Move, key: string, topicKey: string, until: Time)
    requires Reserved(s, key, topicKey, until) && Fair(s, m, key, topicKey, until)
    ensures Reserved(Made(s, m), key, topicKey, until) <==> SparesHolder(s, m, key)
  {
    MoveKeepsHolding(s, m, key, topicKey, until);
    match m {
      case Act(e) => ActionFreeIff(s, e.action, e.now, key, topicKey);
      case Late(id, state, now) => LateFreeIff(s, id, state, now, key);
    }
  }

  lemma ReservationLawIsExact(key: string, topicKey: string, until: Time)
    ensures Exact(ReservationLaw(key, topicKey, until))
  {
    var law := ReservationLaw(key, topicKey, until);
    forall s: FundState, m: Move | law.holds(s) && law.fair(s, m)
      ensures law.holds(Made(s, m)) <==> law.spares(s, m)
    {
      MoveKeepsReservedIff(s, m, key, topicKey, until);
    }
  }

  /** On a run that does not end a reserving claim, the claim is held throughout, and there is a slot for the holder's draft
      throughout if and only if every move of the run spares the holder where it is made. */
  lemma ReservationRunIff(s: FundState, moves: seq<Move>, key: string, topicKey: string, until: Time)
    requires Reserved(s, key, topicKey, until) && AllFairTo(s, moves, key, topicKey, until)
    ensures forall k :: 0 <= k <= |moves| ==> Holds(AfterMoves(s, moves[..k]).claims, key, topicKey, until)
    ensures (forall k :: 0 <= k <= |moves| ==> QuotaFree(AfterMoves(s, moves[..k]).proposals, key))
            <==> (forall k :: 0 <= k < |moves| ==> SparesHolder(AfterMoves(s, moves[..k]), moves[k], key))
  {
    var law := ReservationLaw(key, topicKey, until);
    ReservationLawIsExact(key, topicKey, until);
    RunIff(law, s, moves);
    forall k | 0 <= k <= |moves|
      ensures Roster(AfterMoves(s, moves[..k])) && Holds(AfterMoves(s, moves[..k]).claims, key, topicKey, until)
    {
      RunKeepsHolding(s, moves, k, key, topicKey, until);
    }
    assert HoldsThroughout(law, s, moves) <==> (forall k :: 0 <= k <= |moves| ==> QuotaFree(AfterMoves(s, moves[..k]).proposals, key));
    assert AllSpare(law, s, moves) <==> (forall k :: 0 <= k < |moves| ==> SparesHolder(AfterMoves(s, moves[..k]), moves[k], key));
  }

  // ----- the holder's draft

  /** What can still stop a holder's draft: the fund, the envelope and the legs, in this order. */
  ghost function RemainingStop(f: Fund, b: Brief, now: Time): Option<Code> {
    Refusals.First(Refusals.FundStop(f, now),
    Refusals.First(Refusals.EnvelopeStop(f, b.maxCapital, b.maxDrawdownBps), Refusals.LegsStop(b.legs, b.maxCapital)))
  }

  lemma RemainingNone(f: Fund, b: Brief, now: Time)
    ensures RemainingStop(f, b, now).None?
            <==> TakesIdeas(f, now) && EnvelopeTerms(f, b.maxCapital, b.maxDrawdownBps) && LegsTerms(b.legs, b.maxCapital)
    ensures RemainingStop(f, b, now) !in {Some(FundFull), Some(AgentHasOpenProposal), Some(NoClaim), Some(ClaimMismatch)}
  {
    Refusals.FundSays(f, now);
    GatesIff(f, now);
    Refusals.LegsVerdictSays(b.legs, b.maxCapital);
    LegsIff(b.legs, b.maxCapital);
  }

  lemma HolderFacts(s: FundState, agent: string, topicKey: string, now: Time, until: Time)
    requires Roster(s) && Trimmed(agent) && now < until && Holds(s.claims, Lower(agent), topicKey, until)
    ensures CheckAgentCanAct(s, agent) == Allow
    ensures ClaimOf(s.claims, Lower(agent), now).Some?
            && Normalize(ClaimOf(s.claims, Lower(agent), now).value.topic) == topicKey
  {
    var key := Lower(agent);
    OwnClaim(s.claims, key, topicKey, until, now);
    var c := ClaimOf(s.claims, key, now).value;
    var i :| 0 <= i < |s.claims| && s.claims[i] == c;
    assert HasActive(s.agents, Lower(s.claims[i].agent));
    ActiveCanAct(s, agent);
  }

  /** Where the quotas hold, a claim reserves. */
  lemma InvReserves(s: FundState, key: string, topicKey: string, until: Time)
    requires Inv(s) && Holds(s.claims, key, topicKey, until)
    ensures Reserved(s, key, topicKey, until)
  {
    RosterIs(s);
    var c :| c in s.claims && IsHolding(c, key, topicKey, until);
    var i :| 0 <= i < |s.claims| && s.claims[i] == c;
    OpenCountOfZero(s.proposals, key);
    assert forall j :: 0 <= j < |s.proposals| ==> !OpenFor(s.proposals[j], Lower(s.claims[i].agent));
  }

  /** With a reserving claim the draft check comes down to them. */
  lemma HolderDraftVerdict(s: FundState, agent: string, b: Brief, now: Time, until: Time)
    requires Reserved(s, Lower(agent), Normalize(b.topic), until) && Trimmed(agent) && now < until
    ensures Refusals.Says(CheckDraft(s, agent, b, now), RemainingStop(s.fund, b, now))
  {
    HolderFacts(s, agent, Normalize(b.topic), now, until);
    Refusals.FundSays(s.fund, now);
    Refusals.EnvelopeSays(s.fund, b.maxCapital, b.maxDrawdownBps);
    Refusals.LegsVerdictSays(b.legs, b.maxCapital);
    Refusals.DraftOrder(s, agent, b, now, None, Refusals.FundStop(s.fund, now), false, false, false, false,
                        Refusals.EnvelopeStop(s.fund, b.maxCapital, b.maxDrawdownBps), Refusals.LegsStop(b.legs, b.maxCapital));
  }

  lemma LiveKeepsReserved(s: FundState, key: string, topicKey: string, until: Time, now: Time)
    requires Reserved(s, key, topicKey, until) && now < until
    ensures Reserved(s.(claims := ActiveClaims(s.claims, now)), key, topicKey, until)
  {
    LiveKeepsRoster(s, now);
    LiveKeepsHolding(s.claims, key, topicKey, until, now);
  }

  /** So the draft goes through exactly when it has a thesis, the fund takes ideas, and capital, drawdown and legs are within
      bounds; and if not, the first of these that fails is the code. */
  lemma HolderDraftOutcome(s: FundState, agent: string, b: Brief, now: Time, until: Time)
    requires Reserved(s, Lower(agent), Normalize(b.topic), until) && Trimmed(agent) && now < until
    ensures DecidedByGates(s, agent, b, now)
  {
    var live := s.(claims := ActiveClaims(s.claims, now));
    LiveKeepsReserved(s, Lower(agent), Normalize(b.topic), until, now);
    HolderDraftVerdict(live, agent, b, now, until);
    Refusals.DraftChecked(s, agent, b, now, CheckDraft(live, agent, b, now));
    RemainingNone(s.fund, b, now);
  }

  /** How the holder's draft is decided. */
  ghost predicate DecidedByGates(s: FundState, agent: string, b: Brief, now: Time) {
    var o := Service.DraftProposal(s, agent, b, now);
    && (o.Done? <==> Strip(b.thesis) != "" && TakesIdeas(s.fund, now)
                     && EnvelopeTerms(s.fund, b.maxCapital, b.maxDrawdownBps) && LegsTerms(b.legs, b.maxCapital))
    && (o.Refused? ==> o.code !in {FundFull, AgentHasOpenProposal, NoClaim, ClaimMismatch})
    && (o.Refused? ==> Some(o.code) == Refusals.First(Refusals.If(Strip(b.thesis) == "", NoThesis), RemainingStop(s.fund, b, now)))
  }

  /** A held claim reserves if and only if no quota stands against the holder's draft. */
  lemma HolderFreeIff(s: FundState, agent: string, b: Brief, now: Time, until: Time)
    requires Roster(s) && Trimmed(agent) && Holds(s.claims, Lower(agent), Normalize(b.topic), until) && now < until
    requires TakesIdeas(s.fund, now)
    ensures CheckDraft(s, agent, b, now) !in {Deny(AgentHasOpenProposal), Deny(FundFull)}
            <==> Reserved(s, Lower(agent), Normalize(b.topic), until)
  {
    GatesIff(s.fund, now);
    HolderFacts(s, agent, Normalize(b.topic), now, until);
  }

  lemma ClaimStartsHolding(s: FundState, agent: string, topic: string, t0: Time)
    requires Inv(s) && Trimmed(agent) && Service.ClaimTopic(s, agent, topic, t0).Done?
    ensures Holds(Service.ClaimTopic(s, agent, topic, t0).state.claims, Lower(agent), Normalize(topic), t0 + CLAIM_TTL)
  {
    var live := s.(claims := ActiveClaims(s.claims, t0));
    LiveKeepsInv(s, t0);
    CheckClaimFacts(live, agent, topic, t0);
    var t := Service.ClaimTopic(s, agent, topic, t0).state;
    if ClaimOf(live.claims, Lower(agent), t0).Some? {
      RefreshedFirst(live.claims, Lower(agent), t0);
    } else {
      NormalizeStrip(topic);
      var c := t.claims[|t.claims| - 1];
      assert c in t.claims && IsHolding(c, Lower(agent), Normalize(topic), t0 + CLAIM_TTL);
    }
  }

  lemma {:induction false} RefreshedFirst(claims: seq<Claim>, key: string, now: Time)
    requires ClaimOf(claims, key, now).Some?
    ensures ClaimOf(claims, key, now).value.(expiresAt := now + CLAIM_TTL) in Service.RefreshClaim(claims, key, now)
  {
    if claims[0].expiresAt > now && Lower(claims[0].agent) == key {
      assert Service.RefreshClaim(claims, key, now)[0] == claims[0].(expiresAt := now + CLAIM_TTL);
    } else {
      RefreshedFirst(claims[1..], key, now);
    }
  }

  lemma RequestStartsHolding(s: FundState, agent: string, ideaBy: string, topic: string, t0: Time)
    requires Inv(s) && Trimmed(agent) && Service.RequestDraft(s, agent, ideaBy, topic, t0).Done?
    ensures Holds(Service.RequestDraft(s, agent, ideaBy, topic, t0).state.claims, Lower(agent), Normalize(topic), t0 + CLAIM_TTL)
  {
    var live := s.(claims := ActiveClaims(s.claims, t0));
    LiveKeepsInv(s, t0);
    CheckClaimFacts(live, agent, Strip(topic), t0);
    NormalizeStrip(topic);
    var t := Service.RequestDraft(s, agent, ideaBy, topic, t0).state;
    var c := t.claims[|t.claims| - 1];
    assert c in t.claims && IsHolding(c, Lower(agent), Normalize(topic), t0 + CLAIM_TTL);
  }

  // ----- from a claim on

  lemma ClaimReserves(s: FundState, agent: string, topic: string, a: Action, now: Time)
    requires Inv(s) && a.NamesTrimmed() && Apply(s, a, now).Done?
    requires a == ClaimTopic(agent, topic) || (a.RequestDraft? && a.agent == agent && a.topic == topic)
    ensures Reserved(Next(s, a, now), Lower(agent), Normalize(topic), now + CLAIM_TTL)
  {
    StepKeepsInv(s, a, now);
    if a.ClaimTopic? {
      ClaimStartsHolding(s, agent, topic, now);
    } else {
      RequestStartsHolding(s, agent, a.ideaBy, topic, now);
    }
    InvReserves(Next(s, a, now), Lower(agent), Normalize(topic), now + CLAIM_TTL);
  }

  ghost predicate AllSparing(s: FundState, moves: seq<Move>, key: string) {
    forall k :: 0 <= k < |moves| ==> SparesHolder(AfterMoves(s, moves[..k]), moves[k], key)
  }

  /** Where the quotas hold, harmless late moves spare the holder, and so does everybody's draft. */
  lemma HarmlessSpares(s: FundState, m: Move, key: string, topicKey: string, until: Time)
    requires Inv(s) && Holds(s.claims, key, topicKey, until) && Fair(s, m, key, topicKey, until)
    requires m.Late? ==> Harmless(s, m.id, m.state)
    ensures SparesHolder(s, m, key) && Inv(Made(s, m))
  {
    MadeKeepsInvIff(s, m);
    MoveKeepsHolding(s, m, key, topicKey, until);
    InvReserves(s, key, topicKey, until);
    InvReserves(Made(s, m), key, topicKey, until);
    MoveKeepsReservedIff(s, m, key, topicKey, until);
  }

  lemma {:induction false} HarmlessRunSpares(s: FundState, moves: seq<Move>, key: string, topicKey: string, until: Time, k: nat)
    requires Inv(s) && Holds(s.claims, key, topicKey, until) && AllFairTo(s, moves, key, topicKey, until) && AllHarmless(s, moves)
    requires k <= |moves|
    ensures Inv(AfterMoves(s, moves[..k])) && Holds(AfterMoves(s, moves[..k]).claims, key, topicKey, until)
    ensures k < |moves| ==> SparesHolder(AfterMoves(s, moves[..k]), moves[k], key)
  {
    RosterIs(s);
    RunKeepsHolding(s, moves, k, key, topicKey, until);
    if k > 0 {
      HarmlessRunSpares(s, moves, key, topicKey, until, k - 1);
      MovesStep(s, moves, k - 1);
      HarmlessSpares(AfterMoves(s, moves[..k - 1]), moves[k - 1], key, topicKey, until);
    }
    if k < |moves| {
      HarmlessSpares(AfterMoves(s, moves[..k]), moves[k], key, topicKey, until);
    }
  }

  /** What a state in which the quotas hold and a claim is held promises of every run that does not end the claim. */
  ghost predicate Promise(s: FundState, later: seq<Move>, agent: string, topicKey: string, until: Time) {
    && (AllHarmless(s, later) ==> AllSparing(s, later, Lower(agent)))
    && (AllSparing(s, later, Lower(agent)) <==>
        forall k :: 0 <= k <= |later| ==> QuotaFree(AfterMoves(s, later[..k]).proposals, Lower(agent)))
    && (AllSparing(s, later, Lower(agent)) ==>
        forall k, b: Brief, now :: 0 <= k <= |later| && Normalize(b.topic) == topicKey && now < until
          ==> DecidedByGates(AfterMoves(s, later[..k]), agent, b, now))
  }

  lemma HoldingPromises(s: FundState, later: seq<Move>, agent: string, topicKey: string, until: Time)
    requires Inv(s) && Trimmed(agent) && Holds(s.claims, Lower(agent), topicKey, until)
    requires AllFairTo(s, later, Lower(agent), topicKey, until)
    ensures Promise(s, later, agent, topicKey, until)
  {
    var key := Lower(agent);
    InvReserves(s, key, topicKey, until);
    ReservationRunIff(s, later, key, topicKey, until);
    if AllHarmless(s, later) {
      forall k | 0 <= k < |later|
        ensures SparesHolder(AfterMoves(s, later[..k]), later[k], key)
      {
        HarmlessRunSpares(s, later, key, topicKey, until, k);
      }
    }
    if AllSparing(s, later, key) {
      forall k, b: Brief, now | 0 <= k <= |later| && Normalize(b.topic) == topicKey && now < until
        ensures DecidedByGates(AfterMoves(s, later[..k]), agent, b, now)
      {
        RunKeepsHolding(s, later, k, key, topicKey, until);
        HolderDraftOutcome(AfterMoves(s, later[..k]), agent, b, now, until);
      }
    }
  }

  lemma PastKeepsInv(s0: FundState, past: seq<Move>)
    requires Fresh(s0) && AllTrimmed(past) && AllHarmless(s0, past)
    ensures Inv(AfterMoves(s0, past))
  {
    FreshInv(s0);
    HarmlessKeepsInv(s0, past, |past|);
    assert past[..|past|] == past;
  }

  /** The reservation theorem. From any state reached by actions and harmless late chain moves, let an agent claim a topic
      at t0. Let the other agents, the members, the host and the chain do whatever they like with readings before
      t0 + 600 s, short of removing the agent, and the agent whatever it likes short of releasing the topic or drafting it.
      At every moment until t0 + 600 s the agent's draft on the topic is then decided by the fund gates, the envelope and the
      legs alone, if no late move is harmful, or more generally if every move spares the holder; and that is exactly when
      there is a slot for it throughout. */
  lemma ClaimIsReservation(s0: FundState, past: seq<Move>, agent: string, topic: string, t0: Time, later: seq<Move>)
    requires Fresh(s0) && AllTrimmed(past) && AllHarmless(s0, past) && Trimmed(agent)
    requires Service.ClaimTopic(AfterMoves(s0, past), agent, topic, t0).Done?
    requires AllFairTo(Service.ClaimTopic(AfterMoves(s0, past), agent, topic, t0).state, later,
                       Lower(agent), Normalize(topic), t0 + CLAIM_TTL)
    ensures Promise(Service.ClaimTopic(AfterMoves(s0, past), agent, topic, t0).state, later, agent, Normalize(topic), t0 + CLAIM_TTL)
  {
    var s := AfterMoves(s0, past);
    PastKeepsInv(s0, past);
    ClaimTopicKeepsInv(s, agent, topic, t0);
    ClaimStartsHolding(s, agent, topic, t0);
    HoldingPromises(Service.ClaimTopic(s, agent, topic, t0).state, later, agent, Normalize(topic), t0 + CLAIM_TTL);
  }

  /** A chat pitch's draft request reserves in the same way. */
  lemma DraftRequestIsReservation(s0: FundState, past: seq<Move>, agent: string, ideaBy: string, topic: string, t0: Time,
                                  later: seq<Move>)
    requires Fresh(s0) && AllTrimmed(past) && AllHarmless(s0, past) && Trimmed(agent)
    requires Service.RequestDraft(AfterMoves(s0, past), agent, ideaBy, topic, t0).Done?
    requires AllFairTo(Service.RequestDraft(AfterMoves(s0, past), agent, ideaBy, topic, t0).state, later,
                       Lower(agent), Normalize(topic), t0 + CLAIM_TTL)
    ensures Promise(Service.RequestDraft(AfterMoves(s0, past), agent, ideaBy, topic, t0).state, later,
                    agent, Normalize(topic), t0 + CLAIM_TTL)
  {
    var s := AfterMoves(s0, past);
    PastKeepsInv(s0, past);
    RequestDraftKeepsInv(s, agent, ideaBy, topic, t0);
    RequestStartsHolding(s, agent, ideaBy, topic, t0);
    HoldingPromises(Service.RequestDraft(s, agent, ideaBy, topic, t0).state, later, agent, Normalize(topic), t0 + CLAIM_TTL);
  }

  // ----- the one thing that breaks a reservation

  /** A late move leaves the draft of a holder with a reserving claim free of the quota refusals if and only if its proposal is
      still open, or it is a veto, or its proposer is another agent and no proposal is open. */
  lemma LateMoveSparesHolderIff(s: FundState, id: nat, state: Service.ChainState, at: Time, agent: string, topicKey: string,
                                until: Time, b: Brief, now: Time)
    requires Reserved(s, Lower(agent), topicKey, until) && Trimmed(agent) && now < until
    requires Normalize(b.topic) == topicKey && ProposalIndex(s.proposals, Local(id)).Some?
    requires TakesIdeas(Forced(s, id, state, at).fund, now)
    ensures var p := s.proposals[ProposalIndex(s.proposals, Local(id)).value];
            CheckDraft(Forced(s, id, state, at), agent, b, now) !in {Deny(AgentHasOpenProposal), Deny(FundFull)}
            <==> IsOpen(p.status) || state == Service.Rejected || (Lower(p.proposer) != Lower(agent) && OpenCount(s.proposals) == 0)
  {
    MoveKeepsReservedIff(s, Late(id, state, at), Lower(agent), topicKey, until);
    MoveKeepsHolding(s, Late(id, state, at), Lower(agent), topicKey, until);
    HolderFreeIff(Forced(s, id, state, at), agent, b, now, until);
  }
}
