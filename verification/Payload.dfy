/** From a recorded draft to the body of its prepare request
    (sherwood_monitor/fund/service.py `propose_payload`; txbuilder.py `build_propose_body`, `_calls`, `_uint`). */
module Payload {
  import opened Text
  import opened Numerals
  import opened Legs

  datatype Call = Call(target: string, data: string, value: string)

  /** What is still missing; Rejected stands for an error of the body builder. */
  datatype Missing = NoVault | NoStrategy | NoMetadata | NoDuration | NoCalldata(leg: nat) | Rejected

  datatype Body = Body(
    vault: string,
    strategy: string,
    metadataUri: string,
    strategyDuration: string,
    maxCapital: string,
    maxDrawdownBps: int,
    executeCalls: seq<Call>,
    executeCallCaps: seq<string>,
    settlementCalls: seq<Call>,
    settlementCallCaps: seq<string>)

  /** The draft and what the caller adds to it. */
  datatype Request = Request(
    vault: string,
    strategy: string,
    metadataUri: string,
    strategyDuration: int,
    maxCapital: int,
    maxDrawdownBps: int,
    legs: seq<Leg>)

  // ----- the checks of the body builder

  predicate IsUint(s: string) {
    s != "" && AllDigits(s)
  }

  predicate IsPositiveUint(s: string) {
    IsUint(s) && s[0] != '0'
  }

  predicate IsIpfs(s: string) {
    |s| > 7 && s[..7] == "ipfs://"
  }

  predicate CallAccepted(c: Call) {
    IsAddress(c.target) && IsHexData(c.data) && IsUint(c.value)
  }

  /** `_calls`: None is TxBuilderError. */
  method Calls(calls: seq<Call>) returns (out: Option<seq<Call>>)
    ensures out == if forall i :: 0 <= i < |calls| ==> CallAccepted(calls[i]) then Some(calls) else None
  {
    var list: seq<Call> := [];
    for i := 0 to |calls|
      invariant list == calls[..i] && forall j :: 0 <= j < i ==> CallAccepted(calls[j])
    {
      var c := calls[i];
      if !IsAddress(c.target) || !IsHexData(c.data) || !IsUint(c.value) {
        return None;
      }
      list := list + [c];
    }
    assert list == calls;
    return Some(list);
  }

  predicate AllUints(caps: seq<string>) {
    forall i :: 0 <= i < |caps| ==> IsUint(caps[i])
  }

  predicate BodyAccepted(b: Body) {
    && |b.executeCalls| == |b.executeCallCaps| && |b.settlementCalls| == |b.settlementCallCaps|
    && 0 <= b.maxDrawdownBps <= 10000
    && IsAddress(b.vault) && IsAddress(b.strategy) && IsIpfs(b.metadataUri)
    && IsPositiveUint(b.strategyDuration) && IsPositiveUint(b.maxCapital)
    && (forall i :: 0 <= i < |b.executeCalls| ==> CallAccepted(b.executeCalls[i]))
    && (forall i :: 0 <= i < |b.settlementCalls| ==> CallAccepted(b.settlementCalls[i]))
    && AllUints(b.executeCallCaps) && AllUints(b.settlementCallCaps)
  }

  /** `build_propose_body`. */
  method BuildProposeBody(b: Body) returns (out: Option<Body>)
    ensures out == if BodyAccepted(b) then Some(b) else None
  {
    if |b.executeCalls| != |b.executeCallCaps| || |b.settlementCalls| != |b.settlementCallCaps| {
      return None;
    }
    if !(0 <= b.maxDrawdownBps <= 10000) || !IsAddress(b.vault) || !IsAddress(b.strategy) || !IsIpfs(b.metadataUri)
       || !IsPositiveUint(b.strategyDuration) || !IsPositiveUint(b.maxCapital) {
      return None;
    }
    var execute := Calls(b.executeCalls);
    var settle := Calls(b.settlementCalls);
    if execute.None? || settle.None? || !AllUints(b.executeCallCaps) || !AllUints(b.settlementCallCaps) {
      return None;
    }
    return Some(b.(executeCalls := execute.value, settlementCalls := settle.value));
  }

  // ----- the translation

  /** `_call`. */
  function CallOf(leg: Leg): Call {
    Call(leg.target, leg.data, if leg.value == "" then "0" else leg.value)
  }

  predicate InSide(leg: Leg, phase: string) {
    leg.phase == phase && leg.HasCall()
  }

  /** The calls of one phase. */
  function CallsIn(legs: seq<Leg>, phase: string): seq<Call> {
    if legs == [] then []
    else CallsIn(legs[..|legs| - 1], phase)
         + (if InSide(legs[|legs| - 1], phase) then [CallOf(legs[|legs| - 1])] else [])
  }

  /** The caps of the calls of one phase. */
  function CapsIn(legs: seq<Leg>, phase: string): seq<string> {
    if legs == [] then []
    else CapsIn(legs[..|legs| - 1], phase)
         + (if InSide(legs[|legs| - 1], phase) then [legs[|legs| - 1].cap] else [])
  }

  function BodyOf(q: Request): Body {
    Body(q.vault, q.strategy, q.metadataUri, Show(q.strategyDuration), Show(q.maxCapital), q.maxDrawdownBps,
         CallsIn(q.legs, "execute"), CapsIn(q.legs, "execute"), CallsIn(q.legs, "settle"), CapsIn(q.legs, "settle"))
  }

  /** Nothing is missing. */
  predicate Complete(q: Request) {
    && q.strategyDuration > 0
    && (forall i :: 0 <= i < |q.legs| ==> q.legs[i].HasCall())
    && BodyAccepted(BodyOf(q))
  }

  // ----- what the request says, in its own fields

  /** The calls and caps of one phase: the legs of that phase that have a call, in order and none left out, each with its target,
      its data, its value ("0" if it gives none) and its cap. `at` says where they stand in the draft. */
  ghost predicate Sends(legs: seq<Leg>, phase: string, calls: seq<Call>, caps: seq<string>, at: seq<nat>) {
    && |calls| == |at| == |caps|
    && (forall k, l :: 0 <= k < l < |at| ==> at[k] < at[l])
    && (forall k :: 0 <= k < |at| ==> at[k] < |legs|)
    && (forall i: nat :: i in at <==> i < |legs| && legs[i].phase == phase && legs[i].target != "" && legs[i].data != "")
    && (forall k :: 0 <= k < |at| ==> calls[k].target == legs[at[k]].target && calls[k].data == legs[at[k]].data)
    && (forall k :: 0 <= k < |at| ==> calls[k].value == if legs[at[k]].value != "" then legs[at[k]].value else "0")
    && (forall k :: 0 <= k < |at| ==> caps[k] == legs[at[k]].cap)
  }

  /** The body says what the request says. */
  ghost predicate Carries(q: Request, b: Body) {
    && b.vault == q.vault && b.strategy == q.strategy && b.metadataUri == q.metadataUri && b.maxDrawdownBps == q.maxDrawdownBps
    && ParseInt(b.strategyDuration) == Some(q.strategyDuration) && ParseInt(b.maxCapital) == Some(q.maxCapital)
    && (exists at :: Sends(q.legs, "execute", b.executeCalls, b.executeCallCaps, at))
    && (exists at :: Sends(q.legs, "settle", b.settlementCalls, b.settlementCallCaps, at))
  }

  /** The builder's checks, said of the request. */
  predicate Builds(q: Request) {
    && IsAddress(q.vault) && IsAddress(q.strategy) && IsIpfs(q.metadataUri)
    && q.strategyDuration > 0 && q.maxCapital > 0 && 0 <= q.maxDrawdownBps <= 10000
    && forall i :: 0 <= i < |q.legs| && q.legs[i].phase in {"execute", "settle"} && q.legs[i].target != "" && q.legs[i].data != "" ==>
         && IsAddress(q.legs[i].target) && IsHexData(q.legs[i].data) && IsUint(q.legs[i].cap)
         && (q.legs[i].value == "" || IsUint(q.legs[i].value))
  }

  /** What is missing from the request; the builder is asked only when nothing else is. */
  predicate Lacks(q: Request, m: Missing) {
    match m
    case NoVault => q.vault == ""
    case NoStrategy => q.strategy == ""
    case NoMetadata => q.metadataUri == ""
    case NoDuration => q.strategyDuration <= 0
    case NoCalldata(i) => i < |q.legs| && (q.legs[i].target == "" || q.legs[i].data == "")
    case Rejected => Filled(q) && !Builds(q)
  }

  predicate Filled(q: Request) {
    && q.vault != "" && q.strategy != "" && q.metadataUri != "" && q.strategyDuration > 0
    && forall i :: 0 <= i < |q.legs| ==> q.legs[i].target != "" && q.legs[i].data != ""
  }

  lemma BodyCarries(q: Request)
    ensures Carries(q, BodyOf(q))
  {
    ParseShow(q.strategyDuration);
    ParseShow(q.maxCapital);
    SideSends(q.legs, "execute");
    SideSends(q.legs, "settle");
  }

  lemma SideSends(legs: seq<Leg>, phase: string)
    ensures exists at :: Sends(legs, phase, CallsIn(legs, phase), CapsIn(legs, phase), at)
  {
    var at := SideIsInOrder(legs, phase);
    assert Sends(legs, phase, CallsIn(legs, phase), CapsIn(legs, phase), at);
  }

  lemma BuildsIff(q: Request)
    ensures BodyAccepted(BodyOf(q)) <==> Builds(q)
  {
    ShowPositive(q.strategyDuration);
    ShowPositive(q.maxCapital);
    SideLength(q.legs, "execute");
    SideLength(q.legs, "settle");
    SideOkIff(q.legs, "execute");
    SideOkIff(q.legs, "settle");
    LegsBuildIff(q.legs);
  }

  lemma LegsBuildIff(legs: seq<Leg>)
    ensures (forall i :: 0 <= i < |legs| && (InSide(legs[i], "execute") || InSide(legs[i], "settle")) ==> LegOk(legs[i]))
            <==> forall i :: 0 <= i < |legs| && legs[i].phase in {"execute", "settle"} && legs[i].target != "" && legs[i].data != "" ==>
                   && IsAddress(legs[i].target) && IsHexData(legs[i].data) && IsUint(legs[i].cap)
                   && (legs[i].value == "" || IsUint(legs[i].value))
  {
    assert IsUint("0");
  }

  lemma ShowPositive(n: int)
    ensures IsPositiveUint(Show(n)) <==> n > 0
  {
    if n > 0 {
      ShowNatReads(n);
    } else {
      SignOf(n);
      ShowNatReads(0);
    }
  }

  /** The list of what is missing, before the builder is asked. */
  method Gaps(q: Request) returns (missing: seq<Missing>)
    ensures forall m: Missing :: m in missing <==> !m.Rejected? && Lacks(q, m)
  {
    missing := [];
    if q.vault == "" {
      missing := missing + [NoVault];
    }
    if q.strategy == "" {
      missing := missing + [NoStrategy];
    }
    if q.metadataUri == "" {
      missing := missing + [NoMetadata];
    }
    if q.strategyDuration <= 0 {
      missing := missing + [NoDuration];
    }
    ghost var before := missing;
    for i := 0 to |q.legs|
      invariant forall m: Missing :: m in missing <==> m in before || (m.NoCalldata? && m.leg < i && Lacks(q, m))
    {
      if !q.legs[i].HasCall() {
        missing := missing + [NoCalldata(i)];
      }
    }
  }

  /** `propose_payload`: ready exactly when nothing is missing; either way the body carries the request. */
  method ProposePayload(q: Request) returns (ready: bool, missing: seq<Missing>, body: Body)
    ensures ready <==> missing == []
    ensures ready <==> Filled(q) && Builds(q)
    ensures forall m: Missing :: m in missing <==> Lacks(q, m)
    ensures Carries(q, body)
    ensures ready == Complete(q) && body == BodyOf(q)
  {
    missing := Gaps(q);
    var executeCalls, executeCaps := Side(q.legs, "execute");
    var settleCalls, settleCaps := Side(q.legs, "settle");
    body := Body(q.vault, q.strategy, q.metadataUri, Show(q.strategyDuration), Show(q.maxCapital), q.maxDrawdownBps,
                 executeCalls, executeCaps, settleCalls, settleCaps);
    BodyCarries(q);
    BuildsIff(q);
    NothingLacks(q);
    assert missing != [] ==> missing[0] in missing;
    if missing == [] {
      var built := BuildProposeBody(body);
      if built.None? {
        missing := [Rejected];
      } else {
        body := built.value;
      }
    }
    ready := missing == [];
  }

  lemma NothingLacks(q: Request)
    ensures Filled(q) <==> forall m: Missing :: m.Rejected? || !Lacks(q, m)
  {
    if forall m: Missing :: m.Rejected? || !Lacks(q, m) {
      assert !Lacks(q, NoVault) && !Lacks(q, NoStrategy) && !Lacks(q, NoMetadata) && !Lacks(q, NoDuration);
      forall i: nat | i < |q.legs|
        ensures q.legs[i].target != "" && q.legs[i].data != ""
      {
        assert !Lacks(q, NoCalldata(i));
      }
    }
  }

  /** The two lists of one phase, appended leg by leg. */
  method Side(legs: seq<Leg>, phase: string) returns (calls: seq<Call>, caps: seq<string>)
    ensures calls == CallsIn(legs, phase) && caps == CapsIn(legs, phase)
  {
    calls, caps := [], [];
    for i := 0 to |legs|
      invariant calls == CallsIn(legs[..i], phase) && caps == CapsIn(legs[..i], phase)
    {
      assert legs[..i + 1][..i] == legs[..i];
      if legs[i].phase == phase && legs[i].HasCall() {
        calls, caps := calls + [CallOf(legs[i])], caps + [legs[i].cap];
      }
    }
    assert legs[..|legs|] == legs;
  }

  /** Where the legs of a phase that have a call stand in the draft. */
  function Positions(legs: seq<Leg>, phase: string): (r: seq<nat>)
    ensures forall k :: 0 <= k < |r| ==> r[k] < |legs|
  {
    if legs == [] then []
    else Positions(legs[..|legs| - 1], phase) + (if InSide(legs[|legs| - 1], phase) then [|legs| - 1] else [])
  }

  lemma {:induction false} PositionsAre(legs: seq<Leg>, phase: string)
    ensures forall i :: i in Positions(legs, phase) <==> 0 <= i < |legs| && InSide(legs[i], phase)
    ensures forall k, l :: 0 <= k < l < |Positions(legs, phase)| ==> Positions(legs, phase)[k] < Positions(legs, phase)[l]
  {
    if legs != [] {
      PositionsAre(legs[..|legs| - 1], phase);
    }
  }

  lemma {:induction false} SideAt(legs: seq<Leg>, phase: string, k: nat)
    requires k < |Positions(legs, phase)|
    ensures |CallsIn(legs, phase)| == |Positions(legs, phase)| == |CapsIn(legs, phase)|
    ensures CallsIn(legs, phase)[k] == CallOf(legs[Positions(legs, phase)[k]])
    ensures CapsIn(legs, phase)[k] == legs[Positions(legs, phase)[k]].cap
  {
    SideLength(legs, phase);
    var init := legs[..|legs| - 1];
    SideLength(init, phase);
    if k < |Positions(init, phase)| {
      SideAt(init, phase, k);
    }
  }

  lemma {:induction false} SideLength(legs: seq<Leg>, phase: string)
    ensures |CallsIn(legs, phase)| == |Positions(legs, phase)| == |CapsIn(legs, phase)|
  {
    if legs != [] {
      SideLength(legs[..|legs| - 1], phase);
    }
  }

  /** Each call of a phase, with its cap, comes from one leg of that phase; the legs are taken in order and none of
      that phase that has a call is left out. `at` says from where. */
  lemma SideIsInOrder(legs: seq<Leg>, phase: string) returns (at: seq<nat>)
    ensures |CallsIn(legs, phase)| == |at| && |CapsIn(legs, phase)| == |at|
    ensures forall i :: i in at <==> 0 <= i < |legs| && InSide(legs[i], phase)
    ensures forall k, l :: 0 <= k < l < |at| ==> at[k] < at[l]
    ensures forall k :: 0 <= k < |at| ==>
              at[k] < |legs| && CallsIn(legs, phase)[k] == CallOf(legs[at[k]]) && CapsIn(legs, phase)[k] == legs[at[k]].cap
  {
    at := Positions(legs, phase);
    PositionsAre(legs, phase);
    SideLength(legs, phase);
    forall k | 0 <= k < |at|
      ensures CallsIn(legs, phase)[k] == CallOf(legs[at[k]]) && CapsIn(legs, phase)[k] == legs[at[k]].cap
    {
      SideAt(legs, phase, k);
    }
  }

  // ----- what a ready body of a checked draft promises

  function SumOf(caps: seq<string>): nat {
    if caps == [] then 0 else SumOf(caps[..|caps| - 1]) + Value(caps[|caps| - 1])
  }

  lemma {:induction false} CapSumSplits(legs: seq<Leg>, last: Leg, phase: string)
    ensures CapSum(legs + [last], phase) == CapSum(legs, phase) + CapIn(last, phase)
  {
    if legs == [] {
      assert [last][1..] == [];
    } else {
      CapSumSplits(legs[1..], last, phase);
      assert (legs + [last])[1..] == legs[1..] + [last];
    }
  }

  /** The caps of a side add up to the sum that check_legs bounded. */
  lemma {:induction false} SideSum(legs: seq<Leg>, phase: string)
    requires forall i :: 0 <= i < |legs| ==> legs[i].HasCall()
    requires AllUints(CapsIn(legs, phase))
    ensures SumOf(CapsIn(legs, phase)) == CapSum(legs, phase)
  {
    if legs != [] {
      var init, last := legs[..|legs| - 1], legs[|legs| - 1];
      assert legs == init + [last];
      CapSumSplits(init, last, phase);
      assert last.HasCall();
      assert CapsIn(legs, phase) == if last.phase == phase then CapsIn(init, phase) + [last.cap] else CapsIn(init, phase);
      SideCap(CapsIn(init, phase), last, phase);
      SideSum(init, phase);
    }
  }

  lemma SideCap(caps: seq<string>, last: Leg, phase: string)
    requires last.phase == phase ==> AllUints(caps + [last.cap])
    requires last.phase != phase ==> AllUints(caps)
    ensures AllUints(caps)
    ensures last.phase == phase ==> SumOf(caps + [last.cap]) == SumOf(caps) + CapIn(last, phase)
  {
    if last.phase == phase {
      var more := caps + [last.cap];
      assert more[..|caps|] == caps && more[|caps|] == last.cap;
      assert forall i :: 0 <= i < |caps| ==> more[i] == caps[i];
      ParseDigits(last.cap);
    }
  }

  // The EIP-20 function approve(address,uint256), read from the bytes of a call: selector 095ea7b3, then two words.

  function BytesOf(hex: string): (r: seq<nat>)
    ensures |r| == |hex| / 2
  {
    seq(|hex| / 2, i requires 0 <= i < |hex| / 2 => HexDigitValue(hex[2 * i]) * 16 + HexDigitValue(hex[2 * i + 1]))
  }

  function BigEndian(bytes: seq<nat>): nat {
    if bytes == [] then 0 else BigEndian(bytes[..|bytes| - 1]) * 256 + bytes[|bytes| - 1]
  }

  /** The amount that the call data approves, if it is an EIP-20 approve. */
  function Approves(data: string): Option<nat>
    requires IsHexData(data)
  {
    var bytes := BytesOf(data[2..]);
    if |bytes| >= 68 && bytes[..4] == [0x09, 0x5e, 0xa7, 0xb3] then Some(BigEndian(bytes[36..68])) else None
  }

  lemma {:induction false} HexIsBigEndian(hex: string)
    requires |hex| % 2 == 0
    ensures HexValue(hex) == BigEndian(BytesOf(hex))
  {
    if hex != "" {
      var n := |hex| - 2;
      HexIsBigEndian(hex[..n]);
      var bytes := BytesOf(hex);
      assert bytes[..|bytes| - 1] == BytesOf(hex[..n]);
      assert hex[..n + 1][..n] == hex[..n];
      assert HexValue(hex[..n + 1]) == HexValue(hex[..n]) * 16 + HexDigitValue(hex[n]);
    }
  }

  function Pow256(n: nat): (p: nat)
    ensures p >= 1
  {
    if n == 0 then 1 else 256 * Pow256(n - 1)
  }

  lemma {:induction false} BigEndianBounds(bytes: seq<nat>)
    requires bytes != [] && forall i :: 0 <= i < |bytes| ==> bytes[i] < 256
    ensures bytes[0] * Pow256(|bytes| - 1) <= BigEndian(bytes) < (bytes[0] + 1) * Pow256(|bytes| - 1)
  {
    var n := |bytes| - 1;
    if n == 0 {
      assert bytes[..0] == [] && BigEndian(bytes) == bytes[0];
    } else {
      BigEndianBounds(bytes[..n]);
      Scaled(bytes[0], Pow256(n - 1), BigEndian(bytes[..n]), bytes[n]);
    }
  }

  lemma Scaled(b: nat, p: nat, v: nat, last: nat)
    requires b * p <= v < (b + 1) * p && last < 256
    ensures b * (256 * p) <= v * 256 + last < (b + 1) * (256 * p)
  {
    assert b * (256 * p) == 256 * (b * p) && (b + 1) * (256 * p) == 256 * ((b + 1) * p);
  }

  /** The limit: a word of 32 bytes is unlimited exactly when its highest bit is set. */
  lemma TopBit(word: seq<nat>)
    requires |word| == 32 && forall i :: 0 <= i < 32 ==> word[i] < 256
    ensures BigEndian(word) >= UNLIMITED <==> word[0] >= 128
  {
    BigEndianBounds(word);
    LimitIs();
    Reaches(word[0], Pow256(31), BigEndian(word), UNLIMITED);
  }

  lemma LimitIs()
    ensures 128 * Pow256(31) == UNLIMITED
  {
    PowEight(0);
    PowEight(8);
    PowEight(16);
    PowTwo(24);
    PowTwo(26);
    PowTwo(28);
    assert Pow256(31) == 256 * Pow256(30);
  }

  lemma PowEight(n: nat)
    ensures Pow256(n + 8) == 0x1_0000_0000_0000_0000 * Pow256(n)
  {
    PowTwo(n);
    PowTwo(n + 2);
    PowTwo(n + 4);
    PowTwo(n + 6);
  }

  lemma PowTwo(n: nat)
    ensures Pow256(n + 2) == 0x1_0000 * Pow256(n)
  {
    assert Pow256(n + 1) == 256 * Pow256(n);
  }

  lemma Times(a: nat, b: nat, p: nat)
    requires a <= b
    ensures a * p <= b * p
  {
    assert (b - a) * p >= 0;
  }

  lemma Reaches(b: nat, p: nat, v: nat, limit: nat)
    requires b * p <= v < (b + 1) * p && limit == 128 * p
    ensures v >= limit <==> b >= 128
  {
    if b >= 128 {
      Times(128, b, p);
    } else {
      Times(b + 1, 128, p);
    }
  }

  /** A hexadecimal amount counts as unlimited exactly when its bytes do. */
  lemma HexUnlimitedIff(hex: string)
    requires |hex| % 2 == 0 && hex != "" && AllHex(hex)
    ensures UnlimitedText("0x" + hex) <==> BigEndian(BytesOf(hex)) >= UNLIMITED
  {
    var text := "0x" + hex;
    var t := Lower(text);
    StripTrimmed(text);
    assert t[..2] == "0x" && t[2..] == Lower(hex);
    HexIsBigEndian(hex);
    HexValueLower(hex);
    LowerHex(hex);
    NoWordIsHex(t);
  }

  lemma LowerHex(s: string)
    ensures AllHex(s) <==> AllHex(Lower(s))
  {
    assert forall i :: 0 <= i < |s| ==> Lower(s)[i] == LowerChar(s[i]) && (IsHex(s[i]) <==> IsHex(LowerChar(s[i])));
  }

  lemma NoWordIsHex(t: string)
    requires |t| >= 2 && t[..2] == "0x"
    ensures t !in UNLIMITED_WORDS
  {
    assert t[0] == t[..2][0] == '0';
  }

  lemma PairText(c: char, d: char, x: char, y: char)
    requires IsHex(c) && IsHex(d) && IsHex(x) && IsHex(y) && LowerDone(x) && LowerDone(y)
    requires HexDigitValue(c) * 16 + HexDigitValue(d) == HexDigitValue(x) * 16 + HexDigitValue(y)
    ensures LowerChar(c) == x && LowerChar(d) == y
  {}

  /** Only one lower-case spelling gives the selector's bytes. */
  lemma SelectorText(s: string)
    requires |s| == 8 && AllHex(s) && BytesOf(s) == [0x09, 0x5e, 0xa7, 0xb3]
    ensures Lower(s) == "095ea7b3"
  {
    var b := BytesOf(s);
    assert b[0] == 0x09 && b[1] == 0x5e && b[2] == 0xa7 && b[3] == 0xb3;
    PairText(s[0], s[1], '0', '9');
    PairText(s[2], s[3], '5', 'e');
    PairText(s[4], s[5], 'a', '7');
    PairText(s[6], s[7], 'b', '3');
  }

  /** Whatever the case of its hex digits, the checks see every EIP-20 approve and its amount. */
  lemma ApproveSeen(data: string)
    requires IsHexData(data) && Approves(data).Some?
    ensures ApproveAmount(data) == Approves(data).value
  {
    var hex := data[2..];
    var bytes := BytesOf(hex);
    assert bytes[..4] == BytesOf(hex[..8]);
    SelectorText(hex[..8]);
    var raw := Lower(data);
    assert raw[..10] == Lower(data[..2]) + Lower(hex[..8]);
    assert data[..2] == "0x" && Lower("0x") == "0x";
    assert bytes[36..68] == BytesOf(hex[72..136]);
    HexIsBigEndian(hex[72..136]);
    HexValueLower(hex[72..136]);
    assert raw[74..138] == Lower(hex[72..136]);
  }

  /** A draft whose legs passed check_legs and whose payload is ready: every leg went into exactly one side, each side's
      caps add up to at most the envelope's maxCapital, and no call approves 2^255 or more. */
  lemma ReadyBodyIsSafe(q: Request)
    requires Complete(q) && LegsFault(q.legs, q.maxCapital).None?
    ensures var b := BodyOf(q);
            && |b.executeCalls| + |b.settlementCalls| == |q.legs|
            && IsPositiveUint(b.maxCapital)
            && SumOf(b.executeCallCaps) <= Value(b.maxCapital) && SumOf(b.settlementCallCaps) <= Value(b.maxCapital)
            && (forall i :: 0 <= i < |b.executeCalls| ==> CallSafe(b.executeCalls[i]))
            && (forall i :: 0 <= i < |b.settlementCalls| ==> CallSafe(b.settlementCalls[i]))
  {
    var b := BodyOf(q);
    FirstFaultNone(q.legs);
    SideSum(q.legs, "execute");
    SideSum(q.legs, "settle");
    CapitalPositive(q);
    EnvelopeReads(q);
    EverywhereOnce(q.legs);
    SideCallsSafe(q.legs, "execute");
    SideCallsSafe(q.legs, "settle");
  }

  lemma {:induction false} EverywhereOnce(legs: seq<Leg>)
    requires forall i :: 0 <= i < |legs| ==> legs[i].HasCall() && LegFaultOf(legs[i]).None?
    ensures |CallsIn(legs, "execute")| + |CallsIn(legs, "settle")| == |legs|
  {
    if legs != [] {
      EverywhereOnce(legs[..|legs| - 1]);
      assert LegFaultOf(legs[|legs| - 1]).None?;
    }
  }

  lemma SignOf(n: int)
    ensures |Show(n)| > 0 && (n < 0 ==> Show(n)[0] == '-')
  {
    ShowNatReads(if n < 0 then -n else n);
  }

  lemma CapitalPositive(q: Request)
    requires IsPositiveUint(Show(q.maxCapital))
    ensures q.maxCapital > 0
  {
    SignOf(q.maxCapital);
    ShowNatReads(0);
  }

  /** The envelope's text says the draft's capital. */
  lemma EnvelopeReads(q: Request)
    requires q.maxCapital > 0
    ensures Value(BodyOf(q).maxCapital) == q.maxCapital
  {
    ShowNatReads(q.maxCapital);
  }

  predicate CallSafe(c: Call) {
    IsHexData(c.data) && (Approves(c.data).Some? ==> Approves(c.data).value < UNLIMITED)
  }

  lemma LegCallSafe(leg: Leg)
    requires LegFaultOf(leg).None? && leg.HasCall()
    ensures CallSafe(CallOf(leg))
  {
    if Approves(leg.data).Some? {
      ApproveSeen(leg.data);
    }
  }

  lemma {:induction false} SideCallsSafe(legs: seq<Leg>, phase: string)
    requires forall i :: 0 <= i < |legs| ==> LegFaultOf(legs[i]).None?
    ensures forall i :: 0 <= i < |CallsIn(legs, phase)| ==> CallSafe(CallsIn(legs, phase)[i])
  {
    if legs != [] {
      SideCallsSafe(legs[..|legs| - 1], phase);
      var last := legs[|legs| - 1];
      assert LegFaultOf(last).None?;
      if InSide(last, phase) {
        LegCallSafe(last);
      }
    }
  }

  predicate SideOk(legs: seq<Leg>, phase: string) {
    (forall i :: 0 <= i < |CallsIn(legs, phase)| ==> CallAccepted(CallsIn(legs, phase)[i])) && AllUints(CapsIn(legs, phase))
  }

  predicate LegOk(leg: Leg) {
    CallAccepted(CallOf(leg)) && IsUint(leg.cap)
  }

  lemma SideOkIff(legs: seq<Leg>, phase: string)
    ensures SideOk(legs, phase) <==> forall i :: 0 <= i < |legs| && InSide(legs[i], phase) ==> LegOk(legs[i])
  {
    var at := SideIsInOrder(legs, phase);
    if SideOk(legs, phase) {
      forall i | 0 <= i < |legs| && InSide(legs[i], phase)
        ensures LegOk(legs[i])
      {
        var k :| 0 <= k < |at| && at[k] == i;
        assert CallAccepted(CallsIn(legs, phase)[k]) && IsUint(CapsIn(legs, phase)[k]);
      }
    }
  }

  lemma CompleteIffSidesOk(q: Request)
    requires forall i :: 0 <= i < |q.legs| ==> q.legs[i].HasCall()
    requires IsAddress(q.vault) && IsAddress(q.strategy) && IsIpfs(q.metadataUri)
    requires q.strategyDuration > 0 && q.maxCapital > 0 && 0 <= q.maxDrawdownBps <= 10000
    ensures Complete(q) <==> SideOk(q.legs, "execute") && SideOk(q.legs, "settle")
  {
    ShowNatReads(q.strategyDuration);
    ShowNatReads(q.maxCapital);
    SideLength(q.legs, "execute");
    SideLength(q.legs, "settle");
  }

  /** When a checked draft is ready: its text amounts must be plain digits, which check_legs does not ask for. */
  lemma CheckedReadyIff(q: Request)
    requires LegsFault(q.legs, q.maxCapital).None? && forall i :: 0 <= i < |q.legs| ==> q.legs[i].HasCall()
    requires IsAddress(q.vault) && IsAddress(q.strategy) && IsIpfs(q.metadataUri)
    requires q.strategyDuration > 0 && q.maxCapital > 0 && 0 <= q.maxDrawdownBps <= 10000
    ensures Complete(q) <==> forall i :: 0 <= i < |q.legs| ==> IsUint(q.legs[i].cap) && IsUint(CallOf(q.legs[i]).value)
  {
    FirstFaultNone(q.legs);
    CompleteIffSidesOk(q);
    SideOkIff(q.legs, "execute");
    SideOkIff(q.legs, "settle");
    LegsOkIff(q.legs);
  }

  lemma LegsOkIff(legs: seq<Leg>)
    requires forall i :: 0 <= i < |legs| ==> legs[i].HasCall() && LegFaultOf(legs[i]).None?
    ensures (forall i :: 0 <= i < |legs| && (InSide(legs[i], "execute") || InSide(legs[i], "settle")) ==> LegOk(legs[i]))
            <==> forall i :: 0 <= i < |legs| ==> IsUint(legs[i].cap) && IsUint(CallOf(legs[i]).value)
  {
    forall i | 0 <= i < |legs|
      ensures InSide(legs[i], "execute") || InSide(legs[i], "settle")
      ensures LegOk(legs[i]) <==> IsUint(legs[i].cap) && IsUint(CallOf(legs[i]).value)
    {
      assert LegFaultOf(legs[i]).None?;
    }
  }

  /** A leg without a cap passes check_legs, which reads it as 0; the builder refuses it. */
  lemma EmptyCapPassesChecks(capital: nat) returns (leg: Leg)
    ensures leg.HasCall() && LegsFault([leg], capital).None? && !IsUint(leg.cap)
  {
    leg := Leg("call", "execute", "0x" + Zeros(40), "0x", "", "", "");
    NothingAtFault(leg);
    OneLeg(leg);
  }

  lemma NothingAtFault(leg: Leg)
    requires leg.kind == "call" && leg.phase == "execute" && leg.target == "0x" + Zeros(40) && leg.data == "0x" && leg.cap == ""
    ensures LegFaultOf(leg).None? && CapIn(leg, "execute") == 0 && CapIn(leg, "settle") == 0
  {
    NoCapIsZero(leg);
    var n := |leg.data|;
    assert n == 2 && IsHexData(leg.data);
    ZerosAddress(leg.target);
    ShortApprovesNothing(leg.data);
  }

  lemma NoCapIsZero(leg: Leg)
    requires leg.cap == ""
    ensures CapOf(leg) == Some(0)
  {
    ParseShow(0);
    assert Show(0) == "0";
  }

  lemma ZerosAddress(target: string)
    requires target == "0x" + Zeros(40)
    ensures IsAddress(target)
  {}

  lemma ShortApprovesNothing(data: string)
    requires |data| == 2
    ensures ApproveAmount(data) == 0
  {}

  lemma OneLeg(leg: Leg)
    ensures FirstFault([leg]) == LegFaultOf(leg)
    ensures CapSum([leg], "execute") == CapIn(leg, "execute") && CapSum([leg], "settle") == CapIn(leg, "settle")
  {
    var rest := [leg][1..];
    assert rest == [];
    assert FirstFault(rest).None? && CapSum(rest, "execute") == 0 && CapSum(rest, "settle") == 0;
  }

  function Zeros(n: nat): (z: string)
    ensures |z| == n && AllHex(z)
  {
    if n == 0 then "" else Zeros(n - 1) + "0"
  }
}
