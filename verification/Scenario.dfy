/** One concrete fund and the steps its host can take, from creation on. The failures that other modules exhibit are
    reached by runs of these steps. */
module Scenario {
  import opened Text
  import opened Numerals
  import opened Legs
  import opened Topics
  import opened FundModel
  import opened Rules
  import opened Protocol
  import Service

  function Repeat(c: char, n: nat): (r: string)
    ensures |r| == n && forall i :: 0 <= i < n ==> r[i] == c
  {
    seq(n, i => c)
  }

  function AddressOf(c: char): string {
    "0x" + Repeat(c, 40)
  }

  lemma AddressOfIs(c: char)
    requires IsHex(c)
    ensures IsAddress(AddressOf(c))
  {
    assert AddressOf(c)[2..] == Repeat(c, 40) && AddressOf(c)[..2] == "0x";
  }

  function HostAgent(): Agent {
    Agent("alpha", "1", AddressOf('a'), Host, true, true, false)
  }

  /** A fund as `create_fund` leaves it. */
  function NewFund(): FundState {
    Service.CreateFund(Fund("USDG", "", 1800, 2000, None, None, Some(500), 3600, None), "alpha", "1", AddressOf('a'))
  }

  lemma NewFundIsFresh()
    ensures Fresh(NewFund())
  {}

  /** The fund with these claims and proposals on record, the host its only agent. */
  function Book(claims: seq<Claim>, ps: seq<Proposal>, next: nat): FundState {
    NewFund().(claims := claims, proposals := ps, nextProposalSeq := next)
  }

  /** The fund with a guest agent. */
  function WithGuest(guest: Agent, claims: seq<Claim>): FundState {
    NewFund().(agents := [HostAgent(), guest], claims := claims)
  }

  lemma HostActs(s: FundState)
    requires |s.agents| >= 1 && s.agents[0] == HostAgent()
    ensures FindAgent(s, "alpha") == Some(0) && CheckAgentCanAct(s, "alpha") == Allow && CheckHostAction(s, "alpha") == Allow
  {
    StripTrimmed("alpha");
  }

  lemma GatesOpen(s: FundState, now: Time)
    requires s.fund == NewFund().fund
    ensures FundGates(s.fund, now) == Allow
  {
    assert Upper("USDG") == "USDG";
  }

  lemma ShortTopic(topic: string)
    requires |topic| == 1 && 'a' <= topic[0] <= 'z'
    ensures Normalize(topic) == topic && Strip(topic) == topic
  {
    CanonicalFixed(topic);
    StripTrimmed(topic);
  }

  // ----- the host claims, drafts and moves

  lemma HostMayClaim(ps: seq<Proposal>, next: nat, topic: string, now: Time)
    requires |topic| == 1 && 'a' <= topic[0] <= 'z'
    requires OpenCountOf(ps, "alpha") == 0 && OpenCount(ps) < MAX_OPEN_PER_FUND
    ensures CheckClaim(Book([], ps, next), "alpha", topic, now) == Allow
  {
    var s := Book([], ps, next);
    HostActs(s);
    GatesOpen(s, now);
    ShortTopic(topic);
    assert Lower("alpha") == "alpha";
  }

  /** An allowed claim of an agent who has none. */
  lemma ClaimGoesThrough(s: FundState, agent: string, topic: string, now: Time)
    requires ActiveClaims(s.claims, now) == s.claims && CheckClaim(s, agent, topic, now) == Allow
    requires ClaimOf(s.claims, Lower(agent), now).None? && Strip(topic) == topic
    ensures FindAgent(s, agent).Some?
    ensures Service.ClaimTopic(s, agent, topic, now)
            == Done(s.(claims := s.claims + [Claim(s.agents[FindAgent(s, agent).value].name, topic, now + CLAIM_TTL, "")]))
  {
    assert s.(claims := s.claims) == s;
  }

  lemma HostClaims(ps: seq<Proposal>, next: nat, topic: string, now: Time)
    requires |topic| == 1 && 'a' <= topic[0] <= 'z'
    requires OpenCountOf(ps, "alpha") == 0 && OpenCount(ps) < MAX_OPEN_PER_FUND
    ensures Service.ClaimTopic(Book([], ps, next), "alpha", topic, now)
            == Done(Book([Claim("alpha", topic, now + CLAIM_TTL, "")], ps, next))
  {
    HostMayClaim(ps, next, topic, now);
    HostActs(Book([], ps, next));
    ShortTopic(topic);
  }

  /** One call with no cap, no value and empty call data. */
  function OneLeg(): Leg {
    Leg("call", "execute", AddressOf('c'), "0x", "0", "0", "")
  }

  lemma OneLegPasses(capital: nat)
    ensures LegsFault([OneLeg()], capital).None?
  {
    var leg := OneLeg();
    AddressOfIs('c');
    ParseShow(0);
    assert Show(0) == "0";
    assert CapOf(leg) == Some(0);
    assert ApproveAmount(leg.data) == 0;
    var rest := [leg][1..];
    assert rest == [];
    assert FirstFault(rest).None? && CapSum(rest, "execute") == 0 && CapSum(rest, "settle") == 0;
  }

  function Idea(topic: string): Brief {
    Brief(topic, "w", [OneLeg()], 1, 0, "")
  }

  /** The record of a drafted idea, moved on to `status`. */
  function Record(id: nat, topic: string, status: Status): Proposal {
    Proposal(id, "alpha", topic, "w", [OneLeg()], 1, 0, "", status, None, None, None, 0, None, [], [], [])
  }

  lemma HostMayDraft(ps: seq<Proposal>, next: nat, topic: string, until: Time, now: Time)
    requires |topic| == 1 && 'a' <= topic[0] <= 'z' && now < until
    requires OpenCountOf(ps, "alpha") == 0 && OpenCount(ps) < MAX_OPEN_PER_FUND
    ensures CheckDraft(Book([Claim("alpha", topic, until, "")], ps, next), "alpha", Idea(topic), now) == Allow
  {
    var s := Book([Claim("alpha", topic, until, "")], ps, next);
    HostActs(s);
    GatesOpen(s, now);
    OneLegPasses(1);
    assert Lower("alpha") == "alpha";
  }

  lemma SelectOne(c: Claim, t: ClaimTest)
    ensures Select([c], t) == if Passes(c, t) then [c] else []
  {
    var none := [c][..0];
    assert none == [] && Select(none, t) == [];
  }

  lemma OneClaimLives(c: Claim, now: Time)
    requires c.expiresAt > now
    ensures ActiveClaims([c], now) == [c]
    ensures Select([c], NotOf(Lower(c.agent))) == []
  {
    SelectOne(c, Live(now));
    SelectOne(c, NotOf(Lower(c.agent)));
  }

  /** An allowed draft of a thesis. */
  lemma DraftGoesThrough(s: FundState, agent: string, b: Brief, now: Time, record: Proposal, t: FundState)
    requires Strip(b.thesis) != "" && ActiveClaims(s.claims, now) == s.claims && CheckDraft(s, agent, b, now) == Allow
    requires FindAgent(s, agent).Some? && record == Service.DraftRecord(s, agent, b, now)
    requires t == s.(nextProposalSeq := s.nextProposalSeq + 1, proposals := s.proposals + [record],
                     claims := Select(s.claims, NotOf(Lower(record.proposer))))
    ensures Service.DraftProposal(s, agent, b, now) == Done(t)
  {
    assert s.(claims := s.claims) == s;
  }

  lemma HostRecord(c: Claim, ps: seq<Proposal>, next: nat, topic: string, now: Time)
    requires |topic| == 1 && 'a' <= topic[0] <= 'z' && now < c.expiresAt && c.agent == "alpha" && c.ideaBy == ""
    ensures FindAgent(Book([c], ps, next), "alpha").Some?
    ensures Service.DraftRecord(Book([c], ps, next), "alpha", Idea(topic), now) == Record(next, topic, Draft)
  {
    HostActs(Book([c], ps, next));
    StripTrimmed("w");
    ShortTopic(topic);
  }

  lemma HostDrafts(ps: seq<Proposal>, next: nat, topic: string, until: Time, now: Time)
    requires |topic| == 1 && 'a' <= topic[0] <= 'z' && now < until
    requires OpenCountOf(ps, "alpha") == 0 && OpenCount(ps) < MAX_OPEN_PER_FUND
    ensures Service.DraftProposal(Book([Claim("alpha", topic, until, "")], ps, next), "alpha", Idea(topic), now)
            == Done(Book([], ps + [Record(next, topic, Draft)], next + 1))
  {
    var c := Claim("alpha", topic, until, "");
    var s, t := Book([c], ps, next), Book([], ps + [Record(next, topic, Draft)], next + 1);
    HostMayDraft(ps, next, topic, until, now);
    OneClaimLives(c, now);
    StripTrimmed("w");
    HostRecord(c, ps, next, topic, now);
    DraftGoesThrough(s, "alpha", Idea(topic), now, Record(next, topic, Draft), t);
  }

  /** The host takes its proposal, on record at place r, along a legal edge that is no veto. */
  lemma HostMoves(claims: seq<Claim>, ps: seq<Proposal>, next: nat, id: nat, r: nat, target: Status, now: Time)
    requires ProposalIndex(ps, Local(id)) == Some(r) && r < |ps| && ps[r].proposer == "alpha"
    requires target in Transitions(ps[r].status) && target != Vetoed
    ensures Service.SetStatus(Book(claims, ps, next), "alpha", Local(id), Some(target), None, now)
            == Done(Book(claims, ps[r := Service.MovedTo(ps[r], NewFund().fund, target, None, now)], next))
  {
    HostActs(Book(claims, ps, next));
  }

  // ----- runs

  lemma OneMore(s: FundState, script: Script, e: Event)
    ensures After(s, script + [e]) == Next(After(s, script), e.action, e.now)
    ensures NamesTrimmed(script) && e.action.NamesTrimmed() ==> NamesTrimmed(script + [e])
  {
    assert (script + [e])[..|script|] == script;
  }

  predicate Leads(script: Script, s: FundState) {
    NamesTrimmed(script) && After(NewFund(), script) == s
  }

  lemma Extend(script: Script, s: FundState, e: Event, t: FundState)
    requires Leads(script, s) && e.action.NamesTrimmed() && Apply(s, e.action, e.now) == Done(t)
    ensures Leads(script + [e], t)
  {
    OneMore(NewFund(), script, e);
  }

  lemma ClaimEvent(ps: seq<Proposal>, next: nat, topic: string) returns (e: Event)
    requires |topic| == 1 && 'a' <= topic[0] <= 'z'
    requires OpenCountOf(ps, "alpha") == 0 && OpenCount(ps) < MAX_OPEN_PER_FUND
    ensures e.action.NamesTrimmed() && e.action.ClaimTopic?
    ensures Apply(Book([], ps, next), e.action, e.now) == Done(Book([Claim("alpha", topic, CLAIM_TTL, "")], ps, next))
  {
    e := Event(ClaimTopic("alpha", topic), 0.0);
    HostClaims(ps, next, topic, 0.0);
    assert 0.0 + CLAIM_TTL == CLAIM_TTL;
  }

  lemma DraftEvent(ps: seq<Proposal>, next: nat, topic: string) returns (e: Event)
    requires |topic| == 1 && 'a' <= topic[0] <= 'z'
    requires OpenCountOf(ps, "alpha") == 0 && OpenCount(ps) < MAX_OPEN_PER_FUND
    ensures e.action.NamesTrimmed() && e.action.DraftProposal?
    ensures Apply(Book([Claim("alpha", topic, CLAIM_TTL, "")], ps, next), e.action, e.now)
            == Done(Book([], ps + [Record(next, topic, Draft)], next + 1))
  {
    e := Event(DraftProposal("alpha", Idea(topic)), 0.0);
    HostDrafts(ps, next, topic, CLAIM_TTL, 0.0);
  }

  lemma MoveEvent(claims: seq<Claim>, p: Proposal, next: nat, target: Status) returns (e: Event, q: Proposal)
    requires p.id == 1 && p.proposer == "alpha" && target in Transitions(p.status) && target != Vetoed
    ensures e.action.NamesTrimmed() && e.action.SetStatus? && e.action.target == Some(target) && e.now == 0.0
    ensures Apply(Book(claims, [p], next), e.action, e.now) == Done(Book(claims, [q], next))
    ensures q.id == 1 && q.proposer == "alpha" && q.status == target
  {
    e := Event(SetStatus("alpha", Local(1), Some(target), None), 0.0);
    q := Service.MovedTo(p, NewFund().fund, target, None, 0.0);
    HostMoves(claims, [p], next, 1, 0, target, 0.0);
  }

  lemma OneProposal(p: Proposal)
    ensures OpenCount([p]) == (if IsOpen(p.status) then 1 else 0)
    ensures OpenCountOf([p], Lower(p.proposer)) == (if IsOpen(p.status) then 1 else 0)
    ensures OpenCount([]) == 0 && OpenCountOf([], Lower(p.proposer)) == 0
  {
    var none := [p][..0];
    assert none == [];
  }

  /** Claim and draft. */
  lemma ToDraft() returns (script: Script)
    ensures Leads(script, Book([], [Record(1, "t", Draft)], 2))
  {
    var e := ClaimEvent([], 1, "t");
    assert Book([], [], 1) == NewFund();
    Extend([], NewFund(), e, Book([Claim("alpha", "t", CLAIM_TTL, "")], [], 1));
    var d := DraftEvent([], 1, "t");
    Extend([] + [e], Book([Claim("alpha", "t", CLAIM_TTL, "")], [], 1), d, Book([], [] + [Record(1, "t", Draft)], 2));
    script := [] + [e] + [d];
    assert [] + [Record(1, "t", Draft)] == [Record(1, "t", Draft)];
  }

  lemma MoveOn(script: Script, claims: seq<Claim>, p: Proposal, next: nat, target: Status) returns (e: Event, q: Proposal)
    requires Leads(script, Book(claims, [p], next))
    requires p.id == 1 && p.proposer == "alpha" && target in Transitions(p.status) && target != Vetoed
    ensures e.action.NamesTrimmed() && e.action.SetStatus? && e.action.target == Some(target) && e.now == 0.0
    ensures Apply(Book(claims, [p], next), e.action, e.now) == Done(Book(claims, [q], next))
    ensures Leads(script + [e], Book(claims, [q], next)) && q.id == 1 && q.proposer == "alpha" && q.status == target
  {
    e, q := MoveEvent(claims, p, next, target);
    Extend(script, Book(claims, [p], next), e, Book(claims, [q], next));
  }

  /** A proposal of the host, drafted, proposed, passed and approved. */
  lemma ToApproved() returns (script: Script, p: Proposal)
    ensures Leads(script, Book([], [p], 2)) && p.id == 1 && p.proposer == "alpha" && p.status == Approved
  {
    var s0 := ToDraft();
    var e1, p1 := MoveOn(s0, [], Record(1, "t", Draft), 2, Proposed);
    var e2, p2 := MoveOn(s0 + [e1], [], p1, 2, Passed);
    var e3, p3 := MoveOn(s0 + [e1] + [e2], [], p2, 2, Approved);
    script, p := s0 + [e1] + [e2] + [e3], p3;
  }
}
