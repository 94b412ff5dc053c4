/** Two agents on one topic: where the coordination rules let that happen. */
module TopicClaims {
  import opened Text
  import opened Numerals
  import opened Topics
  import opened FundModel
  import opened Rules
  import opened Coordination
  import opened Protocol
  import opened Scenario
  import Service

  /** Two claims whose topics have the same normal form, a fixed point, are one. */
  lemma OneHolder(claims: seq<Claim>, c: Claim, d: Claim)
    requires DistinctTopics(claims) && c in claims && d in claims
    requires Normalize(c.topic) == Normalize(d.topic) && Normalize(Normalize(c.topic)) == Normalize(c.topic)
    ensures c == d
  {
    var i :| 0 <= i < |claims| && claims[i] == c;
    var j :| 0 <= j < |claims| && claims[j] == d;
    assert i == j || i < j || j < i;
  }

  predicate HeldByOther(claims: seq<Claim>, agent: string, key: string, now: Time) {
    exists d :: d in claims && d.expiresAt > now && Lower(d.agent) != Lower(agent) && Normalize(d.topic) == key
  }

  /** `check_claim` normalizes an already normalized topic before it looks for the holder. So while one agent holds a
      topic, another agent's claim on it, which nothing else stands against, is refused as taken exactly when the
      topic's cut at 80 characters leaves no trailing blank, or another agent holds the text without that blank. */
  lemma TakenTopicRefusedIff(s: FundState, c: Claim, agent: string, topic: string, now: Time)
    requires DistinctTopics(s.claims)
    requires c in s.claims && c.expiresAt > now && Lower(c.agent) != Lower(agent) && Normalize(c.topic) == Normalize(topic)
    requires Both(CheckAgentCanAct(s, agent), FundGates(s.fund, now)) == Allow && Normalize(topic) != ""
    requires OpenCountOf(s.proposals, Lower(agent)) == 0
    ensures CheckClaim(s, agent, topic, now) == Deny(TopicClaimed)
            <==> !CutLeavesBlank(topic) || HeldByOther(s.claims, agent, Normalize(Normalize(topic)), now)
  {
    NormalizeIdempotentIff(topic);
    TwoPassesReachFixedPoint(topic);
    var key := Normalize(Normalize(topic));
    var holder := ClaimForTopic(s.claims, Normalize(topic), now);
    HolderIsOnlyOne(s.claims, agent, key, holder, now);
    if !CutLeavesBlank(topic) {
      assert HeldByOther(s.claims, agent, key, now);
    }
  }

  lemma HolderIsOnlyOne(claims: seq<Claim>, agent: string, key: string, holder: Option<Claim>, now: Time)
    requires DistinctTopics(claims) && Normalize(key) == key
    requires holder.Some? ==> holder.value in claims && Normalize(holder.value.topic) == key && holder.value.expiresAt > now
    requires holder.None? ==> forall i :: 0 <= i < |claims| && claims[i].expiresAt > now ==> Normalize(claims[i].topic) != key
    ensures HeldByOther(claims, agent, key, now) <==> holder.Some? && Lower(holder.value.agent) != Lower(agent)
  {
    if HeldByOther(claims, agent, key, now) {
      var d :| d in claims && d.expiresAt > now && Lower(d.agent) != Lower(agent) && Normalize(d.topic) == key;
      var i :| 0 <= i < |claims| && claims[i] == d;
      assert holder.Some?;
      OneHolder(claims, holder.value, d);
    }
  }

  // ----- a run that leads there

  function Beta(registered: bool): Agent {
    Agent("beta", "2", AddressOf('b'), Guest, registered, registered, false)
  }

  lemma NamesDiffer()
    ensures Lower("alpha") == "alpha" && Lower("beta") == "beta" && Strip("beta") == "beta"
  {
    StripTrimmed("beta");
  }

  lemma GuestFound(s: FundState, registered: bool)
    requires s.agents == [HostAgent(), Beta(registered)]
    ensures FindAgent(s, "beta") == Some(1) && FindTarget(s, "beta") == Some(1)
  {
    NamesDiffer();
    assert s.agents[1..][0] == s.agents[1];
  }

  lemma GuestJoins()
    ensures Service.RequestAgent(NewFund(), "beta", "2", AddressOf('b')) == Done(WithGuest(Beta(false), []))
  {
    var s, t := NewFund(), WithGuest(Beta(false), []);
    OnlyAlpha(s);
    GuestAddress();
    assert s.agents + [Beta(false)] == t.agents;
    NewcomerJoins(s, "beta", "2", AddressOf('b'), t);
  }

  lemma NewcomerJoins(s: FundState, name: string, identityId: string, address: string, t: FundState)
    requires identityId != "" && IsAddress(address) && FindAgentByAddress(s, address).None? && FindAgent(s, name).None?
    requires t == s.(agents := s.agents + [Agent(name, identityId, address, Guest, false, false, false)])
    ensures Service.RequestAgent(s, name, identityId, address) == Done(t)
  {}

  lemma GuestAddress()
    ensures Strip(AddressOf('b')) == AddressOf('b') && Lower(AddressOf('b')) == AddressOf('b') && IsAddress(AddressOf('b'))
    ensures Lower(AddressOf('a')) != AddressOf('b')
  {
    AddressOfIs('b');
    var key := AddressOf('b');
    StripTrimmed(key);
    LowerFixed(key);
    assert Lower(AddressOf('a'))[2] != key[2];
  }

  lemma OnlyAlpha(s: FundState)
    requires s.agents == [HostAgent()]
    ensures FindAgent(s, "beta").None? && FindAgentByAddress(s, AddressOf('b')).None?
  {
    NamesDiffer();
    GuestAddress();
    assert s.agents[1..] == [];
  }

  lemma GuestApproved()
    ensures Service.ApproveAgent(WithGuest(Beta(false), []), "alpha", "beta", true, None) == Done(WithGuest(Beta(true), []))
  {
    AddressOfIs('b');
    GuestFound(WithGuest(Beta(false), []), false);
    HostActs(WithGuest(Beta(false), []));
  }

  lemma FirstAllowed(topic: string)
    requires Normalize(topic) != ""
    ensures CheckClaim(WithGuest(Beta(true), []), "alpha", topic, 0.0) == Allow
  {
    var s := WithGuest(Beta(true), []);
    HostActs(s);
    GatesOpen(s, 0.0);
    NamesDiffer();
  }

  lemma FirstClaim(topic: string)
    requires Trimmed(topic) && Normalize(topic) != ""
    ensures Service.ClaimTopic(WithGuest(Beta(true), []), "alpha", topic, 0.0)
            == Done(WithGuest(Beta(true), [Claim("alpha", topic, CLAIM_TTL, "")]))
  {
    var s := WithGuest(Beta(true), []);
    HostActs(s);
    FirstAllowed(topic);
    StripTrimmed(topic);
    ClaimGoesThrough(s, "alpha", topic, 0.0);
    assert 0.0 + CLAIM_TTL == CLAIM_TTL && s.claims + [Claim("alpha", topic, CLAIM_TTL, "")] == [Claim("alpha", topic, CLAIM_TTL, "")];
  }

  lemma SecondAllowed(topic: string)
    requires CutLeavesBlank(topic)
    ensures var s := WithGuest(Beta(true), [Claim("alpha", topic, CLAIM_TTL, "")]);
            CheckClaim(s, "beta", topic, 0.0) == Allow && ClaimOf(s.claims, "beta", 0.0).None? && ActiveClaims(s.claims, 0.0) == s.claims
  {
    var c := Claim("alpha", topic, CLAIM_TTL, "");
    var s := WithGuest(Beta(true), [c]);
    NamesDiffer();
    GuestFound(s, true);
    GatesOpen(s, 0.0);
    SelectOne(c, Live(0.0));
    SelectOne(c, NotOf("beta"));
    SecondFindsNobody(topic);
    FreeToClaim(s, "beta", topic, 0.0);
  }

  lemma SecondFindsNobody(topic: string)
    requires CutLeavesBlank(topic)
    ensures var claims := [Claim("alpha", topic, CLAIM_TTL, "")];
            ClaimForTopic(claims, Normalize(topic), 0.0).None? && ClaimOf(claims, "beta", 0.0).None? && Normalize(topic) != ""
  {
    NamesDiffer();
    BlankAtCut(topic);
    NormalizeIdempotentIff(topic);
    assert [Claim("alpha", topic, CLAIM_TTL, "")][1..] == [];
  }

  lemma FreeToClaim(s: FundState, agent: string, topic: string, now: Time)
    requires CheckAgentCanAct(s, agent) == Allow && FundGates(s.fund, now) == Allow && Normalize(topic) != ""
    requires OpenCountOf(s.proposals, Lower(agent)) == 0 && ClaimForTopic(s.claims, Normalize(topic), now).None?
    requires ClaimOf(s.claims, Lower(agent), now).None?
    requires OpenCount(s.proposals) + |Select(ActiveClaims(s.claims, now), NotOf(Lower(agent)))| < MAX_OPEN_PER_FUND
    ensures CheckClaim(s, agent, topic, now) == Allow
  {}

  lemma SecondClaim(topic: string)
    requires Trimmed(topic) && CutLeavesBlank(topic)
    ensures var first := Claim("alpha", topic, CLAIM_TTL, "");
            Service.ClaimTopic(WithGuest(Beta(true), [first]), "beta", topic, 0.0)
            == Done(WithGuest(Beta(true), [first, Claim("beta", topic, CLAIM_TTL, "")]))
  {
    var c := Claim("alpha", topic, CLAIM_TTL, "");
    var s := WithGuest(Beta(true), [c]);
    NamesDiffer();
    GuestFound(s, true);
    SecondAllowed(topic);
    StripTrimmed(topic);
    ClaimGoesThrough(s, "beta", topic, 0.0);
    assert 0.0 + CLAIM_TTL == CLAIM_TTL && s.claims + [Claim("beta", topic, CLAIM_TTL, "")] == [c, Claim("beta", topic, CLAIM_TTL, "")];
  }

  lemma GuestEvents(topic: string) returns (script: Script)
    requires Trimmed(topic) && CutLeavesBlank(topic)
    ensures Leads(script, WithGuest(Beta(true), [Claim("alpha", topic, CLAIM_TTL, ""), Claim("beta", topic, CLAIM_TTL, "")]))
  {
    BlankAtCut(topic);
    GuestJoins();
    GuestApproved();
    FirstClaim(topic);
    SecondClaim(topic);
    var c := Claim("alpha", topic, CLAIM_TTL, "");
    var s1, s2 := WithGuest(Beta(false), []), WithGuest(Beta(true), []);
    var s3, s4 := WithGuest(Beta(true), [c]), WithGuest(Beta(true), [c, Claim("beta", topic, CLAIM_TTL, "")]);
    var e1, e2 := Event(RequestAgent("beta", "2", AddressOf('b')), 0.0), Event(ApproveAgent("alpha", "beta", true, None), 0.0);
    var e3, e4 := Event(ClaimTopic("alpha", topic), 0.0), Event(ClaimTopic("beta", topic), 0.0);
    Extend([], NewFund(), e1, s1);
    Extend([] + [e1], s1, e2, s2);
    Extend([] + [e1] + [e2], s2, e3, s3);
    Extend([] + [e1] + [e2] + [e3], s3, e4, s4);
    script := [] + [e1] + [e2] + [e3] + [e4];
  }

  /** Such a topic exists, and a run from a fresh fund on which two agents get to hold it at the same time. */
  lemma TwoAgentsOneTopic() returns (s0: FundState, script: Script)
    ensures Fresh(s0) && NamesTrimmed(script)
    ensures var claims := After(s0, script).claims;
            && |claims| == 2 && claims[0].agent == "alpha" && claims[1].agent == "beta"
            && claims[0].expiresAt == claims[1].expiresAt > 0.0
            && Normalize(claims[0].topic) == Normalize(claims[1].topic)
  {
    var topic := LongTopicKeepsBlank();
    NewFundIsFresh();
    s0 := NewFund();
    script := GuestEvents(topic);
  }
}
