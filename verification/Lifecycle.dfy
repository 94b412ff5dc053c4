/** The life of one proposal over whole runs. */
module Lifecycle {
  import opened FundModel
  import opened Protocol
  import opened Evolution

  /** The list of proposals before step 0, 1, ..., and after the last step. */
  type History = seq<seq<Proposal>>

  function HistoryOf(s: FundState, script: Script): History {
    seq(|script| + 1, k requires 0 <= k <= |script| => At(s, script, k).proposals)
  }

  /** From each list to the next, recorded proposals keep their place and take at most one legal step. */
  ghost predicate Evolving(h: History) {
    forall k :: 0 < k < |h| ==> AllEvolve(h[k - 1], h[k])
  }

  /** Every run is such a history. */
  lemma RunsEvolve(s: FundState, script: Script)
    ensures Evolving(HistoryOf(s, script))
  {
    forall k | 0 <= k < |script|
      ensures AllEvolve(At(s, script, k).proposals, At(s, script, k + 1).proposals)
    {
      StepOfRun(s, script, k);
    }
  }

  lemma StepOfRun(s: FundState, script: Script, k: nat)
    requires k < |script|
    ensures AllEvolve(At(s, script, k).proposals, At(s, script, k + 1).proposals)
  {
    AtStep(s, script, k);
    StepEvolves(At(s, script, k), script[k].action, script[k].now);
  }

  /** Rises strictly along every edge of TRANSITIONS; the three terminal statuses are at the top. */
  function Rank(st: Status): (r: nat)
    ensures r <= 7
    ensures r == 7 <==> IsTerminal(st)
  {
    match st
    case Draft => 0
    case Proposed => 1
    case Voting => 2
    case Passed => 3
    case Review => 4
    case Approved => 5
    case Executed => 6
    case _ => 7
  }

  predicate Recorded(h: History, i: nat, k: nat) {
    k < |h| && i < |h[k]|
  }

  lemma Step(h: History, i: nat, k: nat)
    requires Evolving(h) && Recorded(h, i, k) && k + 1 < |h|
    ensures Recorded(h, i, k + 1) && Evolves(h[k][i], h[k + 1][i])
  {}

  /** What a draft says is what is later proposed, executed and settled. */
  lemma {:induction false} RecordIsKept(h: History, i: nat, k: nat, m: nat)
    requires Evolving(h) && k <= m < |h| && Recorded(h, i, k)
    ensures Recorded(h, i, m)
    ensures var p, q := h[k][i], h[m][i];
            && q.id == p.id && q.proposer == p.proposer && q.topic == p.topic && q.thesis == p.thesis && q.legs == p.legs
            && q.maxCapital == p.maxCapital && q.maxDrawdownBps == p.maxDrawdownBps && q.ideaBy == p.ideaBy
    decreases m - k
  {
    if k < m {
      Step(h, i, k);
      RecordIsKept(h, i, k + 1, m);
    }
  }

  /** How many of the steps k, ..., m - 1 change the status of proposal i. */
  ghost function Changes(h: History, i: nat, k: nat, m: nat): nat
    requires Evolving(h) && k <= m < |h| && Recorded(h, i, k)
    decreases m - k
  {
    if k == m then 0
    else
      Step(h, i, k);
      (if h[k][i].status == h[k + 1][i].status then 0 else 1) + Changes(h, i, k + 1, m)
  }

  /** Each change raises the rank, so a proposal changes status at most seven times, ever. */
  lemma {:induction false} ChangesBoundedByRank(h: History, i: nat, k: nat, m: nat)
    requires Evolving(h) && k <= m < |h| && Recorded(h, i, k)
    ensures Recorded(h, i, m) && Changes(h, i, k, m) <= Rank(h[m][i].status) - Rank(h[k][i].status)
    decreases m - k
  {
    if k < m {
      Step(h, i, k);
      ChangesBoundedByRank(h, i, k + 1, m);
    }
  }

  /** Vetoed, settled and cancelled are final. */
  lemma {:induction false} TerminalIsFinal(h: History, i: nat, k: nat, m: nat)
    requires Evolving(h) && k <= m < |h| && Recorded(h, i, k) && IsTerminal(h[k][i].status)
    ensures Recorded(h, i, m) && h[m][i].status == h[k][i].status
    decreases m - k
  {
    if k < m {
      Step(h, i, k);
      TerminalIsFinal(h, i, k + 1, m);
    }
  }

  /** A proposal that was not executed at k and is at m was passed or approved just before it was executed. */
  lemma {:induction false} ExecutedOnlyAfterApproval(h: History, i: nat, k: nat, m: nat) returns (j: nat)
    requires Evolving(h) && k <= m < |h| && Recorded(h, i, k) && Recorded(h, i, m)
    requires h[k][i].status != Executed && h[m][i].status == Executed
    ensures k <= j < m && Recorded(h, i, j) && Recorded(h, i, j + 1)
    ensures h[j][i].status in {Passed, Approved} && h[j + 1][i].status == Executed
    decreases m - k
  {
    Step(h, i, k);
    if h[k + 1][i].status == Executed {
      j := k;
    } else {
      j := ExecutedOnlyAfterApproval(h, i, k + 1, m);
    }
  }

  /** A proposal in guardian review that is executed or settled later was approved in between. */
  lemma {:induction false} ReviewNeedsApproval(h: History, i: nat, k: nat, m: nat) returns (j: nat)
    requires Evolving(h) && k <= m < |h| && Recorded(h, i, k) && Recorded(h, i, m)
    requires h[k][i].status == Review && h[m][i].status in {Executed, Settled}
    ensures k < j < m && Recorded(h, i, j) && h[j][i].status == Approved
    decreases m - k
  {
    Step(h, i, k);
    if h[k + 1][i].status == Approved {
      j := k + 1;
    } else {
      if IsTerminal(h[k + 1][i].status) {
        TerminalIsFinal(h, i, k + 1, m);
      }
      j := ReviewNeedsApproval(h, i, k + 1, m);
    }
  }

  /** The whole life of every proposal, in every run from any state. */
  lemma ProposalLives(s: FundState, script: Script, i: nat, k: nat, m: nat)
    requires k <= m <= |script| && Recorded(HistoryOf(s, script), i, k)
    ensures var h := HistoryOf(s, script);
            && Evolving(h) && Recorded(h, i, m)
            && Changes(h, i, k, m) <= 7
            && (IsTerminal(h[k][i].status) ==> h[m][i].status == h[k][i].status)
            && (h[k][i].status != Executed && h[m][i].status == Executed ==>
                  exists j :: k <= j < m && Recorded(h, i, j) && h[j][i].status in {Passed, Approved})
            && (h[k][i].status == Review && h[m][i].status in {Executed, Settled} ==>
                  exists j :: k < j < m && Recorded(h, i, j) && h[j][i].status == Approved)
  {
    var h := HistoryOf(s, script);
    RunsEvolve(s, script);
    ChangesBoundedByRank(h, i, k, m);
    if IsTerminal(h[k][i].status) {
      TerminalIsFinal(h, i, k, m);
    }
    if h[k][i].status != Executed && h[m][i].status == Executed {
      var j := ExecutedOnlyAfterApproval(h, i, k, m);
    }
    if h[k][i].status == Review && h[m][i].status in {Executed, Settled} {
      var j := ReviewNeedsApproval(h, i, k, m);
    }
  }
}
