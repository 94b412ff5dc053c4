/** Veto and bond arithmetic (sherwood_monitor/fund/rules.py): integer ceilings written with Python's floor division. */
module Bond {
  import opened Text
  import opened Numerals
  import opened Legs

  const BPS := 10_000

  datatype BondPolicy = BondPolicy(bondBps: int, approveBufferBps: int)

  /** `-(-p // BPS)`; Dafny's `/` floors when the divisor is positive, as Python's `//` does. */
  function CeilBps(p: int): int {
    -((-p) / BPS)
  }

  /** `veto_threshold_shares`. */
  function VetoThresholdShares(totalSupply: int, thresholdBps: int): int {
    CeilBps(totalSupply * thresholdBps)
  }

  /** `is_vetoed`. */
  predicate IsVetoed(against: int, totalSupply: int, thresholdBps: int) {
    totalSupply > 0 && against * BPS >= totalSupply * thresholdBps
  }

  function RequiredBondValue(maxCapital: int, policy: BondPolicy): int {
    CeilBps(maxCapital * policy.bondBps)
  }

  /** `approve_amount_for`. */
  function ApproveAmountFor(quote: int, policy: BondPolicy): int {
    CeilBps(quote * (BPS + policy.approveBufferBps))
  }

  datatype BondPlan = BondPlan(quote: int, approveAmount: int, woodBalance: int, gap: int)

  /** `plan_bond`. */
  function PlanBond(quote: int, woodBalance: int, policy: BondPolicy): BondPlan {
    var approve := ApproveAmountFor(quote, policy);
    BondPlan(quote, approve, woodBalance, if approve - woodBalance > 0 then approve - woodBalance else 0)
  }

  datatype ApproveVerdict = Accepted | Unlimited | TooSmall | TooWide

  /** `check_bond_approve` on an integer amount. */
  function CheckBondApprove(amount: int, quote: int, policy: BondPolicy): ApproveVerdict {
    if amount >= UNLIMITED then Unlimited
    else if amount < quote then TooSmall
    else if amount > ApproveAmountFor(quote, policy) then TooWide
    else Accepted
  }

  /** `check_bond_approve` on text; None stands for the ValueError of `int`. */
  function CheckBondApproveText(amount: string, quote: int, policy: BondPolicy): Option<ApproveVerdict> {
    if UnlimitedText(amount) then Some(Unlimited)
    else
      var value := ParseInt(amount);
      if value.None? then None
      else if value.value < quote then Some(TooSmall)
      else if value.value > ApproveAmountFor(quote, policy) then Some(TooWide)
      else Some(Accepted)
  }

  /** The ceiling is the least integer whose BPS-fold reaches p. */
  lemma CeilIsLeast(p: int, a: int)
    ensures a * BPS >= p <==> a >= CeilBps(p)
  {}

  /** A vote is vetoed exactly when there is a supply and Against reaches the threshold in shares. */
  lemma VetoedIffThresholdReached(against: int, totalSupply: int, thresholdBps: int)
    ensures IsVetoed(against, totalSupply, thresholdBps)
            <==> totalSupply > 0 && against >= VetoThresholdShares(totalSupply, thresholdBps)
  {
    CeilIsLeast(totalSupply * thresholdBps, against);
  }

  /** More Against never un-vetoes, and the threshold is the tipping point: one share less does not veto. */
  lemma ThresholdTips(totalSupply: int, thresholdBps: int, against: int)
    requires totalSupply > 0
    ensures var t := VetoThresholdShares(totalSupply, thresholdBps);
            IsVetoed(t, totalSupply, thresholdBps) && !IsVetoed(t - 1, totalSupply, thresholdBps)
            && (against >= t ==> IsVetoed(against, totalSupply, thresholdBps))
  {
    var t := VetoThresholdShares(totalSupply, thresholdBps);
    CeilIsLeast(totalSupply * thresholdBps, t);
    CeilIsLeast(totalSupply * thresholdBps, t - 1);
    CeilIsLeast(totalSupply * thresholdBps, against);
  }

  /** The amounts `check_bond_approve` accepts: from the quote up to the buffered quote rounded up, below 2^255. */
  lemma AcceptedApprovals(amount: int, quote: int, policy: BondPolicy)
    ensures CheckBondApprove(amount, quote, policy) == Accepted
            <==> quote <= amount && (amount - 1) * BPS < quote * (BPS + policy.approveBufferBps) && amount < UNLIMITED
  {
    CeilIsLeast(quote * (BPS + policy.approveBufferBps), amount - 1);
  }

  lemma WordsAreWords(t: string)
    requires t in UNLIMITED_WORDS
    ensures t != "" && 'a' <= t[0] <= 'z'
  {}

  /** The words that say unlimited, in any case and with any blanks around them. */
  lemma WordsSayUnlimited(text: string)
    requires Lower(Strip(text)) in {"max", "unlimited", "infinite", "uint256max", "type(uint256).max"}
    ensures UnlimitedText(text)
  {}

  lemma DigitsUnlimitedIff(t: string)
    requires t != "" && AllDigits(t)
    ensures UnlimitedNumeral(t) <==> Value(t) >= UNLIMITED
  {
    assert |t| >= 2 ==> t[..2][1] == t[1] && IsDigit(t[1]);
  }

  lemma SignedIsNoNumeral(t: string)
    requires t != "" && (t[0] == '-' || t[0] == '+')
    ensures !UnlimitedNumeral(t)
  {
    assert |t| >= 2 ==> t[..2][0] == t[0];
  }

  /** Of a text that `int` reads, `is_unlimited` sees 2^255 and more unless it is written with a plus sign. */
  lemma UnlimitedTextIff(text: string)
    requires ParseInt(text).Some?
    ensures UnlimitedText(text) <==> ParseInt(text).value >= UNLIMITED && Strip(text)[0] != '+'
  {
    var t := Strip(text);
    if Lower(t) in UNLIMITED_WORDS {
      WordsAreWords(Lower(t));
    }
    if t[0] == '-' || t[0] == '+' {
      SignedIsNoNumeral(Lower(t));
    } else {
      LowerFixed(t);
      DigitsUnlimitedIff(t);
    }
  }

  /** The texts it accepts: those that `int` reads as an amount in the same range. The bound 2^255 does not hold for
      amounts written with a plus sign. */
  lemma AcceptedTexts(text: string, quote: int, policy: BondPolicy)
    ensures CheckBondApproveText(text, quote, policy) == Some(Accepted)
            <==> && ParseInt(text).Some? && quote <= ParseInt(text).value
                 && (ParseInt(text).value - 1) * BPS < quote * (BPS + policy.approveBufferBps)
                 && (ParseInt(text).value < UNLIMITED || Strip(text)[0] == '+')
  {
    if ParseInt(text).Some? {
      UnlimitedTextIff(text);
      CeilIsLeast(quote * (BPS + policy.approveBufferBps), ParseInt(text).value - 1);
    }
  }

  /** The reason given for the others. */
  lemma RefusedApprovals(amount: int, quote: int, policy: BondPolicy)
    ensures CheckBondApprove(amount, quote, policy) == Unlimited <==> amount >= UNLIMITED
    ensures CheckBondApprove(amount, quote, policy) == TooSmall <==> amount < UNLIMITED && amount < quote
    ensures CheckBondApprove(amount, quote, policy) == TooWide
            <==> amount < UNLIMITED && quote <= amount && (amount - 1) * BPS >= quote * (BPS + policy.approveBufferBps)
  {
    CeilIsLeast(quote * (BPS + policy.approveBufferBps), amount - 1);
  }

  /** And for texts that `int` reads; one that it does not read raises, unless it says unlimited. */
  lemma RefusedTexts(text: string, quote: int, policy: BondPolicy)
    ensures var r := CheckBondApproveText(text, quote, policy);
            if ParseInt(text).None? then r == (if UnlimitedText(text) then Some(Unlimited) else None)
            else
              var n := ParseInt(text).value;
              && (r == Some(Unlimited) <==> n >= UNLIMITED && Strip(text)[0] != '+')
              && (r == Some(TooSmall) <==> n < quote && (n < UNLIMITED || Strip(text)[0] == '+'))
              && r.Some?
  {
    if ParseInt(text).Some? {
      UnlimitedTextIff(text);
    }
  }

  lemma BufferedAtLeastQuote(quote: int, policy: BondPolicy)
    requires quote >= 0 && policy.approveBufferBps >= 0
    ensures ApproveAmountFor(quote, policy) >= quote
  {
    var p := quote * policy.approveBufferBps;
    assert p >= 0;
    assert quote * (BPS + policy.approveBufferBps) == quote * BPS + p;
    CeilIsLeast(quote * BPS + p, ApproveAmountFor(quote, policy));
  }

  /** The planned approval is always accepted while it is below 2^255, it is the largest amount that is, and the plan's
      gap is the least top-up that lets the balance cover it. */
  lemma PlanCovers(quote: int, woodBalance: int, policy: BondPolicy, topUp: int, amount: int)
    requires quote >= 0 && policy.approveBufferBps >= 0
    ensures var plan := PlanBond(quote, woodBalance, policy);
            && (CheckBondApprove(plan.approveAmount, quote, policy) == Accepted <==> plan.approveAmount < UNLIMITED)
            && (CheckBondApprove(amount, quote, policy) == Accepted ==> amount <= plan.approveAmount)
            && plan.quote == quote && plan.woodBalance == woodBalance && plan.gap >= 0
            && (topUp >= 0 ==> (woodBalance + topUp >= plan.approveAmount <==> topUp >= plan.gap))
  {
    BufferedAtLeastQuote(quote, policy);
  }

  /** The smallest bond that is at least the policy's share of the coverage. */
  lemma BondIsLeast(maxCapital: int, policy: BondPolicy, bond: int)
    ensures bond * BPS >= maxCapital * policy.bondBps <==> bond >= RequiredBondValue(maxCapital, policy)
  {
    CeilIsLeast(maxCapital * policy.bondBps, bond);
  }
}
