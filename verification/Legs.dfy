/** Proposal legs and the checks on them
    (sherwood_monitor/fund/models.py `Leg`; rules.py `check_legs`; units.py `is_unlimited`). */
module Legs {
  import opened Text
  import opened Numerals

  /** One step of a proposal. Amounts are text, as the record keeps them. */
  datatype Leg = Leg(
    kind: string,
    phase: string,
    target: string,
    data: string,
    value: string,
    cap: string,
    amount: string)
  {
    predicate HasCall() {
      target != "" && data != ""
    }
  }

  datatype LegFault = NoLegs | BadLeg | UnlimitedApprove | CapsExceedCapital

  /** 2^255: approvals from here up count as unlimited. */
  const UNLIMITED: nat := 0x8000000000000000000000000000000000000000000000000000000000000000

  predicate IsHexData(s: string) {
    |s| >= 2 && s[..2] == "0x" && AllHex(s[2..])
  }

  const UNLIMITED_WORDS: seq<string> := ["max", "unlimited", "infinite", "uint256max", "type(uint256).max"]

  /** `is_unlimited` on text. */
  predicate UnlimitedText(amount: string) {
    var t := Lower(Strip(amount));
    t in UNLIMITED_WORDS || UnlimitedNumeral(t)
  }

  predicate UnlimitedNumeral(t: string) {
    if |t| >= 2 && t[..2] == "0x" then |t| > 2 && AllHex(t[2..]) && HexValue(t[2..]) >= UNLIMITED
    else t != "" && AllDigits(t) && Value(t) >= UNLIMITED
  }

  /** `_approve_amount_from_calldata`. */
  function ApproveAmount(data: string): nat {
    var raw := Lower(data);
    if |raw| < 10 + 128 || raw[..10] != "0x095ea7b3" then 0 else HexValue(raw[74..138])
  }

  function CapOf(leg: Leg): Option<int> {
    ParseInt(if leg.cap == "" then "0" else leg.cap)
  }

  /** What the loop body of `check_legs` finds wrong with one leg. */
  function LegFaultOf(leg: Leg): Option<LegFault> {
    if leg.phase != "execute" && leg.phase != "settle" then Some(BadLeg)
    else if leg.kind == "approve" && leg.amount != "" && UnlimitedText(leg.amount) then Some(UnlimitedApprove)
    else if (leg.target != "" || leg.data != "") && !IsAddress(leg.target) then Some(BadLeg)
    else if (leg.target != "" || leg.data != "") && !IsHexData(leg.data) then Some(BadLeg)
    else if (leg.target != "" || leg.data != "") && ApproveAmount(leg.data) >= UNLIMITED then Some(UnlimitedApprove)
    else if CapOf(leg).None? || CapOf(leg).value < 0 then Some(BadLeg)
    else None
  }

  function FirstFault(legs: seq<Leg>): Option<LegFault> {
    if legs == [] then None
    else if LegFaultOf(legs[0]).Some? then LegFaultOf(legs[0])
    else FirstFault(legs[1..])
  }

  /** What a leg adds to the sum of its phase. */
  function CapIn(leg: Leg, phase: string): int {
    if leg.phase == phase && CapOf(leg).Some? then CapOf(leg).value else 0
  }

  /** The caps of one phase, added up. */
  function CapSum(legs: seq<Leg>, phase: string): int {
    if legs == [] then 0 else CapIn(legs[0], phase) + CapSum(legs[1..], phase)
  }

  /** `check_legs`, said without its loop; None is ALLOW. */
  function LegsFault(legs: seq<Leg>, maxCapital: int): Option<LegFault> {
    if legs == [] then Some(NoLegs)
    else if FirstFault(legs).Some? then FirstFault(legs)
    else if CapSum(legs, "execute") > maxCapital || CapSum(legs, "settle") > maxCapital then Some(CapsExceedCapital)
    else None
  }

  lemma {:induction false} FirstFaultNone(legs: seq<Leg>)
    ensures FirstFault(legs).None? <==> forall j :: 0 <= j < |legs| ==> LegFaultOf(legs[j]).None?
  {
    if legs != [] {
      FirstFaultNone(legs[1..]);
      assert forall j :: 1 <= j < |legs| ==> legs[j] == legs[1..][j - 1];
    }
  }

  /** `check_legs`: one pass that stops at the first bad leg and keeps a running sum per phase. */
  method CheckLegs(legs: seq<Leg>, maxCapital: int) returns (fault: Option<LegFault>)
    ensures fault == LegsFault(legs, maxCapital)
  {
    if legs == [] {
      return Some(NoLegs);
    }
    var executeCaps, settleCaps := 0, 0;
    for i := 0 to |legs|
      invariant FirstFault(legs) == FirstFault(legs[i..])
      invariant executeCaps + CapSum(legs[i..], "execute") == CapSum(legs, "execute")
      invariant settleCaps + CapSum(legs[i..], "settle") == CapSum(legs, "settle")
    {
      var leg := legs[i];
      assert legs[i..][1..] == legs[i + 1..];
      var found := LegFaultOf(leg);
      if found.Some? {
        return found;
      }
      var cap := CapOf(leg);
      if leg.phase == "execute" {
        executeCaps := executeCaps + cap.value;
      } else {
        settleCaps := settleCaps + cap.value;
      }
    }
    if executeCaps > maxCapital {
      return Some(CapsExceedCapital);
    }
    if settleCaps > maxCapital {
      return Some(CapsExceedCapital);
    }
    return None;
  }
}
