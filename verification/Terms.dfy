/** The rules in the terms of the records: whom a name means, when the fund takes ideas, what a claim and a draft need.
    Nothing here calls a check or a lookup of the service; the lemmas tie those to it. */
module Terms {
  import opened Text
  import opened Numerals
  import opened Legs
  import opened Topics
  import opened FundModel
  import opened Rules
  import opened Coordination
  import Payload

  // ----- whom a name means: the first match in list order, without regard to case

  predicate NamesAgent(s: FundState, name: string, i: nat) {
    && i < |s.agents| && Lower(s.agents[i].name) == Lower(Strip(name))
    && forall j :: 0 <= j < i ==> Lower(s.agents[j].name) != Lower(Strip(name))
  }

  predicate NoAgentNamed(s: FundState, name: string) {
    forall j :: 0 <= j < |s.agents| ==> Lower(s.agents[j].name) != Lower(Strip(name))
  }

  predicate HasAddress(s: FundState, address: string, i: nat) {
    && Strip(address) != "" && i < |s.agents| && Lower(s.agents[i].address) == Lower(Strip(address))
    && forall j :: 0 <= j < i ==> Lower(s.agents[j].address) != Lower(Strip(address))
  }

  /** By name, or else by address. */
  predicate MeansAgent(s: FundState, name: string, i: nat) {
    || NamesAgent(s, name, i)
    || (NoAgentNamed(s, name) && HasAddress(s, name, i))
  }

  predicate NamesMember(s: FundState, who: string, i: nat) {
    && Strip(who) != "" && i < |s.members| && GoesBy(s.members[i], Lower(Strip(who)))
    && forall j :: 0 <= j < i ==> !GoesBy(s.members[j], Lower(Strip(who)))
  }

  predicate NobodyIs(s: FundState, who: string) {
    Strip(who) == "" || forall j :: 0 <= j < |s.members| ==> !GoesBy(s.members[j], Lower(Strip(who)))
  }

  /** By id, or else by the address given. */
  predicate KnownAs(s: FundState, who: string, address: string, i: nat) {
    NamesMember(s, who, i) || (NobodyIs(s, who) && address != "" && NamesMember(s, address, i))
  }

  predicate NobodyKnown(s: FundState, who: string, address: string) {
    NobodyIs(s, who) && (address == "" || NobodyIs(s, address))
  }

  predicate NamesProposal(s: FundState, ref: Ref, r: nat) {
    && r < |s.proposals| && Named(s.proposals[r], ref)
    && forall j :: 0 <= j < r ==> !Named(s.proposals[j], ref)
  }

  lemma FindsAgent(s: FundState, name: string)
    ensures FindAgent(s, name).Some? ==> NamesAgent(s, name, FindAgent(s, name).value)
    ensures forall i: nat :: NamesAgent(s, name, i) ==> FindAgent(s, name) == Some(i)
    ensures FindAgent(s, name).None? <==> NoAgentNamed(s, name)
  {}

  lemma FindsTarget(s: FundState, name: string)
    ensures FindTarget(s, name).Some? ==> MeansAgent(s, name, FindTarget(s, name).value)
    ensures forall i: nat :: MeansAgent(s, name, i) ==> FindTarget(s, name) == Some(i)
  {
    FindsAgent(s, name);
  }

  lemma FindsByAddress(s: FundState, address: string)
    ensures FindAgentByAddress(s, address).Some? ==> HasAddress(s, address, FindAgentByAddress(s, address).value)
    ensures forall i: nat :: HasAddress(s, address, i) ==> FindAgentByAddress(s, address) == Some(i)
  {}

  lemma FindsMember(s: FundState, who: string)
    ensures FindMember(s, who).Some? ==> NamesMember(s, who, FindMember(s, who).value)
    ensures forall i: nat :: NamesMember(s, who, i) ==> FindMember(s, who) == Some(i)
    ensures FindMember(s, who).None? <==> NobodyIs(s, who)
  {}

  lemma FindsProposal(s: FundState, ref: Ref)
    ensures var r := ProposalIndex(s.proposals, ref); r.Some? ==> NamesProposal(s, ref, r.value)
    ensures forall r: nat :: NamesProposal(s, ref, r) ==> ProposalIndex(s.proposals, ref) == Some(r)
  {}

  // ----- who may act

  ghost predicate Active(s: FundState, name: string) {
    exists i: nat :: NamesAgent(s, name, i) && s.agents[i].registered && !s.agents[i].removed
  }

  ghost predicate IsHost(s: FundState, name: string) {
    exists i: nat :: NamesAgent(s, name, i) && s.agents[i].role == Host && !s.agents[i].removed
  }

  /** No caller is given, or it is the host's own account. */
  predicate FromHost(s: FundState, caller: Option<string>) {
    caller == None || (caller == Some(s.fund.hostTelegramId) && s.fund.hostTelegramId != "")
  }

  lemma ActsIff(s: FundState, name: string)
    ensures CheckAgentCanAct(s, name) == Allow <==> Active(s, name)
    ensures CheckHostAction(s, name) == Allow <==> IsHost(s, name)
  {
    FindsAgent(s, name);
  }

  lemma CallerIff(s: FundState, caller: Option<string>)
    ensures CheckCallerIsHost(s, caller) == Allow <==> FromHost(s, caller)
  {}

  // ----- the life of a proposal: from which statuses each one is entered

  predicate LeadsTo(from: Status, to: Status) {
    match to
    case Draft => false
    case Proposed => from == Draft
    case Voting => from == Proposed
    case Passed => from in {Proposed, Voting}
    case Review => from in {Proposed, Voting, Passed}
    case Approved => from in {Passed, Review}
    case Vetoed => from in {Proposed, Voting, Review}
    case Executed => from in {Passed, Approved}
    case Settled => from == Executed
    case Cancelled => from in {Draft, Proposed, Voting, Passed, Review, Approved}
  }

  lemma LeadsIff(from: Status, to: Status)
    ensures to in Transitions(from) <==> LeadsTo(from, to)
  {}

  // ----- the fund

  predicate IsUsdg(asset: string) {
    |asset| == 4 && asset[0] in {'U', 'u'} && asset[1] in {'S', 's'} && asset[2] in {'D', 'd'} && asset[3] in {'G', 'g'}
  }

  predicate FeeInRange(f: Fund) {
    f.agentFeeBps.Some? && 0 <= f.agentFeeBps.value <= 1500
  }

  predicate Cooling(f: Fund, now: Time) {
    f.cooldownUntil.Some? && now < f.cooldownUntil.value
  }

  predicate TakesIdeas(f: Fund, now: Time) {
    IsUsdg(f.asset) && FeeInRange(f) && !Cooling(f, now)
  }

  lemma UpperIs(c: char, d: char)
    requires 'A' <= d <= 'Z'
    ensures (if 'a' <= c <= 'z' then (c as int - 32) as char else c) == d <==> c == d || c as int == d as int + 32
  {}

  lemma UsdgIff(asset: string)
    ensures Upper(asset) == "USDG" <==> IsUsdg(asset)
  {
    if |asset| == 4 {
      UpperIs(asset[0], 'U');
      UpperIs(asset[1], 'S');
      UpperIs(asset[2], 'D');
      UpperIs(asset[3], 'G');
      assert 'U' as int + 32 == 'u' as int && 'S' as int + 32 == 's' as int;
      assert 'D' as int + 32 == 'd' as int && 'G' as int + 32 == 'g' as int;
      var up := Upper(asset);
      assert up == [up[0], up[1], up[2], up[3]];
    }
  }

  lemma GatesIff(f: Fund, now: Time)
    ensures FundGates(f, now) == Allow <==> TakesIdeas(f, now)
  {
    UsdgIff(f.asset);
  }

  // ----- open proposals and live claims

  predicate HasOpen(ps: seq<Proposal>, key: string) {
    exists i :: 0 <= i < |ps| && IsOpen(ps[i].status) && Lower(ps[i].proposer) == key
  }

  function OpenPlaces(ps: seq<Proposal>): set<nat> {
    set i: nat | i < |ps| && IsOpen(ps[i].status)
  }

  /** The live claims of other agents. */
  function OthersPlaces(claims: seq<Claim>, key: string, now: Time): set<nat> {
    set i: nat | i < |claims| && claims[i].expiresAt > now && Lower(claims[i].agent) != key
  }

  lemma HasOpenIff(ps: seq<Proposal>, key: string)
    ensures OpenCountOf(ps, key) == 0 <==> !HasOpen(ps, key)
  {
    OpenCountOfZero(ps, key);
    assert forall i :: 0 <= i < |ps| ==> (OpenFor(ps[i], key) <==> IsOpen(ps[i].status) && Lower(ps[i].proposer) == key);
  }

  lemma {:induction false} OpenPlacesCount(ps: seq<Proposal>)
    ensures OpenCount(ps) == |OpenPlaces(ps)|
  {
    if ps != [] {
      var n := |ps| - 1;
      OpenPlacesCount(ps[..n]);
      assert OpenPlaces(ps) == OpenPlaces(ps[..n]) + (if IsOpen(ps[n].status) then {n} else {});
    }
  }

  lemma SelectSnoc(claims: seq<Claim>, c: Claim, t: ClaimTest)
    ensures Select(claims + [c], t) == Select(claims, t) + (if Passes(c, t) then [c] else [])
  {
    assert (claims + [c])[..|claims|] == claims;
  }

  lemma {:induction false} OthersPlacesCount(claims: seq<Claim>, key: string, now: Time)
    ensures |Select(ActiveClaims(claims, now), NotOf(key))| == |OthersPlaces(claims, key, now)|
  {
    if claims != [] {
      var n := |claims| - 1;
      OthersPlacesCount(claims[..n], key, now);
      OneMorePlace(claims[..n], claims[n], key, now);
      assert claims[..n] + [claims[n]] == claims;
    }
  }

  lemma OneMorePlace(claims: seq<Claim>, c: Claim, key: string, now: Time)
    ensures var counts := c.expiresAt > now && Lower(c.agent) != key;
            && OthersPlaces(claims + [c], key, now) == OthersPlaces(claims, key, now) + (if counts then {|claims|} else {})
            && |Select(ActiveClaims(claims + [c], now), NotOf(key))|
               == |Select(ActiveClaims(claims, now), NotOf(key))| + (if counts then 1 else 0)
  {
    OneMoreSelected(claims, c, key, now);
    var counts := c.expiresAt > now && Lower(c.agent) != key;
    var more := claims + [c];
    assert more[|claims|] == c && forall i :: 0 <= i < |claims| ==> more[i] == claims[i];
    assert OthersPlaces(more, key, now) == OthersPlaces(claims, key, now) + (if counts then {|claims|} else {});
  }

  lemma OneMoreSelected(claims: seq<Claim>, c: Claim, key: string, now: Time)
    ensures |Select(ActiveClaims(claims + [c], now), NotOf(key))|
            == |Select(ActiveClaims(claims, now), NotOf(key))| + (if c.expiresAt > now && Lower(c.agent) != key then 1 else 0)
  {
    var live := ActiveClaims(claims, now);
    SelectSnoc(claims, c, Live(now));
    SelectSnoc(live, c, NotOf(key));
    assert live + [] == live;
  }

  /** The agent's first live claim. */
  predicate FirstOwn(claims: seq<Claim>, key: string, now: Time, i: nat) {
    && i < |claims| && claims[i].expiresAt > now && Lower(claims[i].agent) == key
    && forall j :: 0 <= j < i && claims[j].expiresAt > now ==> Lower(claims[j].agent) != key
  }

  /** The first live claim on a topic. */
  predicate FirstOn(claims: seq<Claim>, topicKey: string, now: Time, i: nat) {
    && i < |claims| && claims[i].expiresAt > now && Normalize(claims[i].topic) == topicKey
    && forall j :: 0 <= j < i && claims[j].expiresAt > now ==> Normalize(claims[j].topic) != topicKey
  }

  lemma {:induction false} OwnIs(claims: seq<Claim>, key: string, now: Time) returns (i: nat)
    ensures ClaimOf(claims, key, now).Some? ==> FirstOwn(claims, key, now, i) && ClaimOf(claims, key, now).value == claims[i]
  {
    i := 0;
    if claims != [] && !(claims[0].expiresAt > now && Lower(claims[0].agent) == key) {
      var k := OwnIs(claims[1..], key, now);
      i := k + 1;
    }
  }

  lemma {:induction false} OnIs(claims: seq<Claim>, topic: string, now: Time) returns (i: nat)
    ensures ClaimForTopic(claims, topic, now).Some? ==>
              FirstOn(claims, Normalize(topic), now, i) && ClaimForTopic(claims, topic, now).value == claims[i]
  {
    i := 0;
    if claims != [] && !(claims[0].expiresAt > now && Normalize(claims[0].topic) == Normalize(topic)) {
      var k := OnIs(claims[1..], topic, now);
      i := k + 1;
    }
  }

  lemma {:induction false} SelectCons(c: Claim, claims: seq<Claim>, t: ClaimTest)
    ensures Select([c] + claims, t) == (if Passes(c, t) then [c] else []) + Select(claims, t)
  {
    if claims == [] {
      assert [c] + claims == [c] && [c][..0] == [];
      assert Select([c], t) == Select([c][..0], t) + (if Passes(c, t) then [c] else []);
    } else {
      var n := |claims| - 1;
      SelectCons(c, claims[..n], t);
      assert ([c] + claims)[..n + 1] == [c] + claims[..n];
    }
  }

  lemma LiveCons(claims: seq<Claim>, now: Time)
    requires claims != []
    ensures var rest, live := ActiveClaims(claims[1..], now), ActiveClaims(claims, now);
            if claims[0].expiresAt > now then live != [] && live[0] == claims[0] && live[1..] == rest else live == rest
  {
    SelectCons(claims[0], claims[1..], Live(now));
    assert [claims[0]] + claims[1..] == claims;
  }

  /** Dropping the dead claims does not change which live one comes first. */
  lemma {:induction false} OwnOfLive(claims: seq<Claim>, key: string, now: Time)
    ensures ClaimOf(ActiveClaims(claims, now), key, now) == ClaimOf(claims, key, now)
  {
    if claims != [] {
      LiveCons(claims, now);
      OwnOfLive(claims[1..], key, now);
    }
  }

  lemma {:induction false} OnOfLive(claims: seq<Claim>, topic: string, now: Time)
    ensures ClaimForTopic(ActiveClaims(claims, now), topic, now) == ClaimForTopic(claims, topic, now)
  {
    if claims != [] {
      LiveCons(claims, now);
      OnOfLive(claims[1..], topic, now);
    }
  }

  lemma OwnIff(claims: seq<Claim>, key: string, now: Time)
    ensures var c := ClaimOf(ActiveClaims(claims, now), key, now);
            && (c.Some? <==> exists i: nat :: FirstOwn(claims, key, now, i))
            && forall i: nat :: FirstOwn(claims, key, now, i) ==> c == Some(claims[i])
  {
    OwnOfLive(claims, key, now);
    var k := OwnIs(claims, key, now);
    forall i: nat | FirstOwn(claims, key, now, i)
      ensures ClaimOf(claims, key, now).Some? && k == i
    {
      assert claims[i].expiresAt > now;
    }
  }

  lemma OnIff(claims: seq<Claim>, topic: string, now: Time)
    ensures var c := ClaimForTopic(ActiveClaims(claims, now), topic, now);
            && (c.Some? <==> exists i: nat :: FirstOn(claims, Normalize(topic), now, i))
            && forall i: nat :: FirstOn(claims, Normalize(topic), now, i) ==> c == Some(claims[i])
  {
    OnOfLive(claims, topic, now);
    var k := OnIs(claims, topic, now);
    forall i: nat | FirstOn(claims, Normalize(topic), now, i)
      ensures ClaimForTopic(claims, topic, now).Some? && k == i
    {
      assert claims[i].expiresAt > now;
    }
  }

  // ----- what a claim needs

  ghost predicate ClaimTerms(s: FundState, agent: string, topic: string, now: Time) {
    && Active(s, agent) && TakesIdeas(s.fund, now) && Normalize(topic) != ""
    && !HasOpen(s.proposals, Lower(agent))
    // nobody else comes first on the topic (which is normalized once more before the search)
    && (forall i: nat :: FirstOn(s.claims, Normalize(Normalize(topic)), now, i) ==> Lower(s.claims[i].agent) == Lower(agent))
    // the agent's claim, if it has one, is on this topic; if not, there is a slot
    && (forall i: nat :: FirstOwn(s.claims, Lower(agent), now, i) ==> Normalize(s.claims[i].topic) == Normalize(topic))
    && ((exists i: nat :: FirstOwn(s.claims, Lower(agent), now, i))
        || |OpenPlaces(s.proposals)| + |OthersPlaces(s.claims, Lower(agent), now)| < 2)
  }

  lemma AllClaimsLive(claims: seq<Claim>, now: Time)
    ensures ActiveClaims(ActiveClaims(claims, now), now) == ActiveClaims(claims, now)
  {
    SelectMembers(claims, Live(now));
    var live := ActiveClaims(claims, now);
    assert forall i :: 0 <= i < |live| ==> live[i] in live;
    SelectAll(live, Live(now));
  }

  lemma ClaimIff(s: FundState, agent: string, topic: string, now: Time)
    ensures CheckClaim(s.(claims := ActiveClaims(s.claims, now)), agent, topic, now) == Allow <==> ClaimTerms(s, agent, topic, now)
  {
    var live := s.(claims := ActiveClaims(s.claims, now));
    var key := Lower(agent);
    ActsIff(live, agent);
    ActiveSame(s, live, agent);
    GatesIff(s.fund, now);
    HasOpenIff(s.proposals, key);
    OnIff(s.claims, Normalize(topic), now);
    OwnIff(s.claims, key, now);
    AllClaimsLive(s.claims, now);
    OpenPlacesCount(s.proposals);
    OthersPlacesCount(s.claims, key, now);
  }

  lemma ActiveSame(s: FundState, t: FundState, name: string)
    requires s.agents == t.agents
    ensures Active(s, name) <==> Active(t, name)
  {
    assert forall i: nat :: NamesAgent(s, name, i) <==> NamesAgent(t, name, i);
  }

  // ----- what a draft needs

  predicate EnvelopeTerms(f: Fund, maxCapital: int, maxDrawdownBps: int) {
    && 0 < maxCapital && (f.maxCapital.Some? ==> maxCapital <= f.maxCapital.value)
    && 0 <= maxDrawdownBps <= 10000 && (f.maxDrawdownBps.Some? ==> maxDrawdownBps <= f.maxDrawdownBps.value)
  }

  /** The phase is known; a stated approval is limited; a call has an address, hex data and approves less than 2^255; the cap
      reads as a number that is not negative, a blank one as 0. */
  predicate LegTerms(leg: Leg) {
    && leg.phase in {"execute", "settle"}
    && (leg.kind == "approve" && leg.amount != "" ==> !UnlimitedText(leg.amount))
    && (leg.target != "" || leg.data != "" ==>
          && IsAddress(leg.target) && IsHexData(leg.data)
          && (Payload.Approves(leg.data).Some? ==> Payload.Approves(leg.data).value < UNLIMITED))
    && (leg.cap == "" || (ParseInt(leg.cap).Some? && ParseInt(leg.cap).value >= 0))
  }

  predicate LegsTerms(legs: seq<Leg>, maxCapital: int) {
    && legs != [] && (forall i :: 0 <= i < |legs| ==> LegTerms(legs[i]))
    && CapSum(legs, "execute") <= maxCapital && CapSum(legs, "settle") <= maxCapital
  }

  /** Call data that is no EIP-20 approve counts as approving nothing. */
  lemma NoApproveIsZero(data: string)
    requires IsHexData(data) && Payload.Approves(data).None?
    ensures ApproveAmount(data) == 0
  {
    SelectedApproves(data);
  }

  /** The text of the selector is that of its bytes. */
  lemma SelectedApproves(data: string)
    requires IsHexData(data)
    ensures |data| >= 138 && Lower(data)[..10] == "0x095ea7b3" ==> Payload.Approves(data).Some?
  {
    var raw, hex := Lower(data), data[2..];
    if |raw| >= 138 && raw[..10] == "0x095ea7b3" {
      assert raw[2..10] == Lower(hex[..8]);
      assert raw[2..10] == raw[..10][2..];
      SelectorBytes(hex[..8]);
      assert Payload.BytesOf(hex)[..4] == Payload.BytesOf(hex[..8]);
    }
  }

  lemma SelectorBytes(s: string)
    requires |s| == 8 && AllHex(s) && Lower(s) == "095ea7b3"
    ensures Payload.BytesOf(s) == [0x09, 0x5e, 0xa7, 0xb3]
  {
    assert forall i :: 0 <= i < 8 ==> LowerChar(s[i]) == Lower(s)[i] && IsHex(s[i]);
    PairBytes(s[0], s[1], '0', '9');
    PairBytes(s[2], s[3], '5', 'e');
    PairBytes(s[4], s[5], 'a', '7');
    PairBytes(s[6], s[7], 'b', '3');
  }

  lemma PairBytes(c: char, d: char, x: char, y: char)
    requires IsHex(c) && IsHex(d) && LowerChar(c) == x && LowerChar(d) == y
    ensures HexDigitValue(c) * 16 + HexDigitValue(d) == HexDigitValue(x) * 16 + HexDigitValue(y)
  {}

  lemma LegIff(leg: Leg)
    ensures LegFaultOf(leg).None? <==> LegTerms(leg)
  {
    ParseShow(0);
    assert Show(0) == "0";
    if IsHexData(leg.data) {
      if Payload.Approves(leg.data).Some? {
        Payload.ApproveSeen(leg.data);
      } else {
        NoApproveIsZero(leg.data);
      }
    }
  }

  lemma LegsIff(legs: seq<Leg>, maxCapital: int)
    ensures LegsFault(legs, maxCapital).None? <==> LegsTerms(legs, maxCapital)
  {
    FirstFaultNone(legs);
    forall i | 0 <= i < |legs|
      ensures LegFaultOf(legs[i]).None? <==> LegTerms(legs[i])
    {
      LegIff(legs[i]);
    }
  }

  ghost predicate DraftTerms(s: FundState, agent: string, b: Brief, now: Time) {
    && Strip(b.thesis) != "" && Active(s, agent) && TakesIdeas(s.fund, now)
    && !HasOpen(s.proposals, Lower(agent)) && |OpenPlaces(s.proposals)| < 2
    && (exists i: nat :: FirstOwn(s.claims, Lower(agent), now, i) && Normalize(s.claims[i].topic) == Normalize(b.topic))
    && EnvelopeTerms(s.fund, b.maxCapital, b.maxDrawdownBps) && LegsTerms(b.legs, b.maxCapital)
  }

  lemma EnvelopeIff(f: Fund, maxCapital: int, maxDrawdownBps: int)
    ensures CheckEnvelope(f, maxCapital, maxDrawdownBps) == Allow <==> EnvelopeTerms(f, maxCapital, maxDrawdownBps)
  {}

  lemma DraftIff(s: FundState, agent: string, b: Brief, now: Time)
    ensures Strip(b.thesis) != "" && CheckDraft(s.(claims := ActiveClaims(s.claims, now)), agent, b, now) == Allow
            <==> DraftTerms(s, agent, b, now)
  {
    var live := s.(claims := ActiveClaims(s.claims, now));
    var key := Lower(agent);
    ActsIff(live, agent);
    ActiveSame(s, live, agent);
    GatesIff(s.fund, now);
    HasOpenIff(s.proposals, key);
    OwnIff(s.claims, key, now);
    OpenPlacesCount(s.proposals);
    EnvelopeIff(s.fund, b.maxCapital, b.maxDrawdownBps);
    LegsIff(b.legs, b.maxCapital);
  }
}
