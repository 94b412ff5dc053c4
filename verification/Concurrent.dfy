/** The fund's actions by many processes at once. A process loads, creates a fund, runs one action, or does what
    `apply_chain_card` does with a status row: load, test, and, in a later update, move without a test. What the shared
    file holds and what a reader gets. */
module Concurrent {
  import opened Text
  import opened FundModel
  import opened Rules
  import opened Protocol
  import opened ChainRace
  import opened Moves
  import Store

  type FundJob = Store.Job<FundState>
  type FundSystem = Store.System<FundState>
  type FundStep = Store.Step<FundState>

  /** A move as a mutator: it raises when a rule refuses the action, or when the proposal is unknown. */
  function Mutation(s: FundState, m: Move): Option<FundState> {
    match m
    case Act(e) => (match Apply(s, e.action, e.now)
                    case Done(t) => Some(t)
                    case Refused(_) => None)
    case Late(id, state, now) =>
      if ProposalIndex(s.proposals, Local(id)).None? then None else Some(Forced(s, id, state, now))
  }

  /** No process applies a chain row in one update. */
  ghost predicate Performs(mutate: FundState -> Option<FundState>, m: Move) {
    && NameTrimmed(m) && (m.Act? ==> !m.event.action.ApplyChainStatus?)
    && forall s :: mutate(s) == Mutation(s, m)
  }

  // ----- the jobs of fund processes

  /** The move passed its test on what some prefix of the commits had made. */
  ghost predicate TestedOn(commits: seq<FundJob>, m: Move)
    requires m.Late?
  {
    exists j :: 0 <= j <= |commits| && TestedAt(commits, j, m)
  }

  ghost predicate TestedAt(commits: seq<FundJob>, j: nat, m: Move)
    requires m.Late? && j <= |commits|
  {
    Store.Replay(commits[..j]).Whole? && Tested(Store.Replay(commits[..j]).stored.payload, m.id, m.state)
  }

  /** A job that a fund process may have in hand when these are the commits. */
  ghost predicate OfFund(commits: seq<FundJob>, job: FundJob) {
    match job
    case Load => true
    case Create(init) => Fresh(init)
    case Update(mutate) => exists m :: Performs(mutate, m) && (m.Late? ==> TestedOn(commits, m))
  }

  /** What a process may begin: an untested move only right after a load of its own that passed the test. */
  ghost predicate MayBegin(t: FundSystem, step: FundStep)
    requires step.Begin?
  {
    match step.job
    case Load => true
    case Create(init) => Fresh(init)
    case Update(mutate) => exists m :: Performs(mutate, m) && (m.Late? ==> JustTested(t, step.i, m))
  }

  ghost predicate JustTested(t: FundSystem, i: nat, m: Move)
    requires m.Late?
  {
    i < |t.procs| && t.procs[i].Finished? && t.procs[i].result.Loaded?
    && Tested(t.procs[i].result.stored.payload, m.id, m.state)
  }

  ghost predicate FundSteps(s: FundSystem, steps: seq<FundStep>) {
    forall k :: 0 <= k < |steps| && steps[k].Begin? ==> MayBegin(Store.Run(s, steps[..k]), steps[k])
  }

  predicate HasJob(p: Store.Proc<FundState>) {
    !(p.Idle? || p.Leaving? || p.Finished?)
  }

  ghost predicate AllOfFund(s: FundSystem) {
    && (forall i :: 0 <= i < |s.procs| && HasJob(s.procs[i]) ==> OfFund(s.commits, s.procs[i].job))
    && CommitsOfFund(s.commits)
  }

  ghost predicate CommitsOfFund(commits: seq<FundJob>) {
    forall k :: 0 <= k < |commits| ==> OfFund(commits[..k], commits[k])
  }

  lemma OfFundGrows(commits: seq<FundJob>, more: FundJob, job: FundJob)
    requires OfFund(commits, job)
    ensures OfFund(commits + [more], job)
  {
    if job.Update? {
      var m :| Performs(job.mutate, m) && (m.Late? ==> TestedOn(commits, m));
      if m.Late? {
        var j :| 0 <= j <= |commits| && TestedAt(commits, j, m);
        assert (commits + [more])[..j] == commits[..j];
        assert TestedAt(commits + [more], j, m);
      }
    }
  }

  /** A tested load is a test on some prefix of the commits. */
  lemma BeginOfFund(t: FundSystem, step: FundStep)
    requires Store.Inv(t) && step.Begin? && MayBegin(t, step)
    ensures OfFund(t.commits, step.job)
  {
    if step.job.Update? {
      var m :| Performs(step.job.mutate, m) && (m.Late? ==> JustTested(t, step.i, m));
      if m.Late? {
        var p := t.procs[step.i];
        assert Store.HonestProc(t.commits, p);
        var j :| 0 <= j <= |t.commits| && Store.Replay(t.commits[..j]) == Store.Whole(p.result.stored);
        assert TestedAt(t.commits, j, m);
      }
    }
  }

  lemma MovedJob(s: FundSystem, step: FundStep)
    requires Store.Moved(s, step).Some? && HasJob(Store.Moved(s, step).value)
    ensures if step.Begin? then Store.Moved(s, step).value.job == step.job
            else HasJob(s.procs[step.i]) && Store.Moved(s, step).value.job == s.procs[step.i].job
  {}

  lemma CommitsOfFundGrow(commits: seq<FundJob>, job: FundJob)
    requires CommitsOfFund(commits) && OfFund(commits, job)
    ensures CommitsOfFund(commits + [job])
  {
    forall k | 0 <= k < |commits + [job]|
      ensures OfFund((commits + [job])[..k], (commits + [job])[k])
    {
      assert (commits + [job])[..k] == commits[..k];
      assert commits[..|commits|] == commits;
    }
  }

  lemma StepOfFund(t: FundSystem, step: FundStep)
    requires Store.Inv(t) && AllOfFund(t) && (step.Begin? ==> MayBegin(t, step))
    ensures AllOfFund(Store.Do(t, step))
  {
    var m := Store.Moved(t, step);
    if m.Some? {
      if step.Begin? {
        BeginOfFund(t, step);
      }
      if HasJob(m.value) {
        MovedJob(t, step);
      }
      if step.Replace? {
        ReplaceOfFund(t, step);
      }
    }
  }

  lemma ReplaceOfFund(t: FundSystem, step: FundStep)
    requires AllOfFund(t) && step.Replace? && Store.Moved(t, step).Some?
    ensures AllOfFund(Store.Do(t, step))
  {
    var u := Store.Do(t, step);
    CommitsOfFundGrow(t.commits, t.procs[step.i].job);
    forall i | 0 <= i < |u.procs| && HasJob(u.procs[i])
      ensures OfFund(u.commits, u.procs[i].job)
    {
      OfFundGrows(t.commits, t.procs[step.i].job, t.procs[i].job);
    }
  }

  lemma {:induction false} RunOfFund(s: FundSystem, steps: seq<FundStep>)
    requires Store.Initial(s) && FundSteps(s, steps)
    ensures AllOfFund(Store.Run(s, steps))
  {
    if steps != [] {
      var n := |steps| - 1;
      assert forall k :: 0 <= k < n ==> steps[..n][k] == steps[k] && steps[..n][..k] == steps[..k];
      RunOfFund(s, steps[..n]);
      Store.RunKeepsInv(s, steps[..n]);
      StepOfFund(Store.Run(s, steps[..n]), steps[n]);
    }
  }

  // ----- commits as moves

  /** The commits make, one after another, the states of this run of moves. */
  ghost predicate Mirrors(commits: seq<FundJob>, init: FundState, moves: seq<Move>) {
    |commits| == |moves| + 1 && forall j :: 0 <= j <= |moves| ==> Holds(commits[..j + 1], init, moves[..j])
  }

  ghost predicate Holds(commits: seq<FundJob>, init: FundState, moves: seq<Move>) {
    Store.Replay(commits).Whole? && Store.Replay(commits).stored.payload == AfterMoves(init, moves)
  }

  lemma UpdateIsMove(file: Store.File<FundState>, job: FundJob, m: Move)
    requires file.Whole? && job.Update? && Performs(job.mutate, m)
    ensures Store.Effect(file, job).Whole?
    ensures Store.Effect(file, job).stored.payload == Made(file.stored.payload, m)
  {
    assert job.mutate(file.stored.payload) == Mutation(file.stored.payload, m);
  }

  lemma HoldsMore(commits: seq<FundJob>, job: FundJob, init: FundState, moves: seq<Move>, m: Move)
    requires Holds(commits, init, moves) && job.Update? && Performs(job.mutate, m)
    ensures Holds(commits + [job], init, moves + [m])
  {
    UpdateIsMove(Store.Replay(commits), job, m);
    assert (commits + [job])[..|commits|] == commits && (moves + [m])[..|moves|] == moves;
  }

  lemma MirrorsGrow(commits: seq<FundJob>, job: FundJob, init: FundState, moves: seq<Move>, m: Move)
    requires Mirrors(commits, init, moves) && job.Update? && Performs(job.mutate, m)
    ensures Mirrors(commits + [job], init, moves + [m])
  {
    var cs, ms := commits + [job], moves + [m];
    var n := |moves|;
    assert Holds(commits, init, moves) by {
      assert commits[..n + 1] == commits && moves[..n] == moves;
    }
    HoldsMore(commits, job, init, moves, m);
    forall j | 0 <= j <= n + 1
      ensures Holds(cs[..j + 1], init, ms[..j])
    {
      if j <= n {
        assert cs[..j + 1] == commits[..j + 1] && ms[..j] == moves[..j];
      } else {
        assert cs[..j + 1] == cs && ms[..j] == ms;
      }
    }
  }

  lemma TestedOnIsBefore(commits: seq<FundJob>, init: FundState, moves: seq<Move>, m: Move)
    requires Mirrors(commits, init, moves) && m.Late? && TestedOn(commits, m)
    ensures TestedUpTo(init, moves + [m], |moves|, m.id, m.state)
  {
    var j :| 0 <= j <= |commits| && TestedAt(commits, j, m);
    assert j > 0;
    assert (moves + [m])[..j - 1] == moves[..j - 1];
    assert Holds(commits[..j - 1 + 1], init, moves[..j - 1]) && commits[..j - 1 + 1] == commits[..j];
    assert Tested(AfterMoves(init, (moves + [m])[..j - 1]), m.id, m.state);
  }

  lemma TestedBeforeGrows(s: FundState, moves: seq<Move>, m: Move)
    requires TestedBefore(s, moves) && (m.Late? ==> TestedUpTo(s, moves + [m], |moves|, m.id, m.state))
    ensures TestedBefore(s, moves + [m])
  {
    var ms := moves + [m];
    forall k | 0 <= k < |ms| && ms[k].Late?
      ensures TestedUpTo(s, ms, k, ms[k].id, ms[k].state)
    {
      if k < |moves| {
        assert TestedUpTo(s, moves, k, moves[k].id, moves[k].state);
        var j :| 0 <= j <= k && Tested(AfterMoves(s, moves[..j]), moves[k].id, moves[k].state);
        assert ms[..j] == moves[..j];
      }
    }
  }

  lemma CreationMirrors(commits: seq<FundJob>)
    requires |commits| == 1 && commits[0].Create?
    ensures Mirrors(commits, commits[0].init, [])
  {
    var none: seq<Move> := [];
    assert commits[..1] == commits && commits[..0] == [] && none[..0] == none;
    assert Store.Replay(commits[..0]) == Store.Missing;
    assert Store.Replay(commits) == Store.Effect(Store.Missing, commits[0]);
  }

  /** The serial meaning of such commits is a run of moves, each late one tested before. */
  lemma {:induction false} CommitsAreMoves(commits: seq<FundJob>) returns (moves: seq<Move>)
    requires commits != [] && Store.WellOrdered(commits) && CommitsOfFund(commits)
    ensures commits[0].Create? && Fresh(commits[0].init) && AllTrimmed(moves)
    ensures Mirrors(commits, commits[0].init, moves) && TestedBefore(commits[0].init, moves)
  {
    assert OfFund(commits[..0], commits[0]);
    if |commits| == 1 {
      moves := [];
      CreationMirrors(commits);
    } else {
      var n := |commits| - 1;
      assert forall k :: 0 <= k < n ==> commits[..n][k] == commits[k] && commits[..n][..k] == commits[..k];
      var rest := CommitsAreMoves(commits[..n]);
      assert commits[n].Update? && OfFund(commits[..n], commits[n]);
      var m :| Performs(commits[n].mutate, m) && (m.Late? ==> TestedOn(commits[..n], m));
      MirrorsGrow(commits[..n], commits[n], commits[0].init, rest, m);
      assert commits[..n] + [commits[n]] == commits;
      if m.Late? {
        TestedOnIsBefore(commits[..n], commits[0].init, rest, m);
      }
      TestedBeforeGrows(commits[0].init, rest, m);
      moves := rest + [m];
    }
  }

  // ----- what the file and the readers get

  /** The state after a run of n moves from a fresh fund, each late one tested on an earlier state of the run. */
  ghost predicate Reached(t: FundState, n: nat) {
    exists init, moves :: ComesFrom(t, init, moves) && |moves| == n
  }

  ghost predicate ComesFrom(t: FundState, init: FundState, moves: seq<Move>) {
    Fresh(init) && AllTrimmed(moves) && TestedBefore(init, moves) && t == AfterMoves(init, moves)
  }

  lemma PrefixComesFrom(commits: seq<FundJob>, init: FundState, moves: seq<Move>)
    requires Mirrors(commits, init, moves) && Fresh(init) && AllTrimmed(moves) && TestedBefore(init, moves)
    ensures Store.Replay(commits).Whole? && Reached(Store.Replay(commits).stored.payload, |moves|)
  {
    assert commits[..|moves| + 1] == commits && moves[..|moves|] == moves && Holds(commits[..|moves| + 1], init, moves[..|moves|]);
    assert ComesFrom(Store.Replay(commits).stored.payload, init, moves);
  }

  /** Whatever the processes do, and however they are interleaved, delayed, refused or crash: a file that exists holds
      the state after one run of moves from a fresh fund, one for each committed update. */
  lemma SharedFileIsRun(s: FundSystem, steps: seq<FundStep>)
    requires Store.Initial(s) && FundSteps(s, steps) && !Store.Run(s, steps).file.Missing?
    ensures var f := Store.Run(s, steps).file;
            f.Whole? && f.stored.revision >= 1 && Reached(f.stored.payload, f.stored.revision - 1)
  {
    Store.RunKeepsInv(s, steps);
    RunOfFund(s, steps);
    var commits := Store.Run(s, steps).commits;
    var moves := CommitsAreMoves(commits);
    PrefixComesFrom(commits, commits[0].init, moves);
  }

  /** A reader gets such a state too, never a mixture. */
  lemma LoadedIsRun(s: FundSystem, steps: seq<FundStep>, i: nat)
    requires Store.Initial(s) && FundSteps(s, steps) && i < |Store.Run(s, steps).procs|
    requires var p := Store.Run(s, steps).procs[i]; p.Finished? && p.result.Loaded?
    ensures exists n :: Reached(Store.Run(s, steps).procs[i].result.stored.payload, n)
  {
    Store.RunKeepsInv(s, steps);
    RunOfFund(s, steps);
    var t := Store.Run(s, steps);
    assert Store.HonestProc(t.commits, t.procs[i]);
    PrefixReached(t.commits, t.procs[i].result.stored);
  }

  lemma PrefixReached(commits: seq<FundJob>, stored: Store.Stored<FundState>)
    requires Store.WellOrdered(commits) && CommitsOfFund(commits) && Store.Honest(commits, Store.Loaded(stored))
    ensures exists n :: Reached(stored.payload, n)
  {
    var k :| 0 <= k <= |commits| && Store.Replay(commits[..k]) == Store.Whole(stored);
    var prefix := commits[..k];
    assert forall j :: 0 <= j < k ==> prefix[j] == commits[j] && prefix[..j] == commits[..j];
    var moves := CommitsAreMoves(prefix);
    PrefixComesFrom(prefix, prefix[0].init, moves);
  }

  lemma StepAt(s: FundSystem, steps: seq<FundStep>, k: nat)
    requires Store.Initial(s) && FundSteps(s, steps) && k < |steps|
    ensures Store.Run(s, steps[..k + 1]) == Store.Do(Store.Run(s, steps[..k]), steps[k])
    ensures Store.Inv(Store.Run(s, steps[..k])) && AllOfFund(Store.Run(s, steps[..k]))
  {
    assert steps[..k + 1][..k] == steps[..k];
    assert forall j :: 0 <= j < k ==> steps[..k][j] == steps[j] && steps[..k][..j] == steps[..j];
    Store.RunKeepsInv(s, steps[..k]);
    RunOfFund(s, steps[..k]);
  }
}
