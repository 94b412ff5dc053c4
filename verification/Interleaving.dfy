/** Two processes, step by step, on one fund: an interleaving after which the quotas do not hold of the shared file, and
    a reservation that a late chain move breaks. */
module Interleaving {
  import opened Text
  import opened FundModel
  import opened Rules
  import opened Protocol
  import opened ChainRace
  import opened Concurrent
  import opened Scenario
  import Coordination
  import Receipts
  import Service
  import Store

  // ----- one job after another

  predicate AtRest(p: Store.Proc<FundState>) {
    p.Idle? || (p.Finished? && !p.result.Crashed?)
  }

  predicate OthersRest(t: FundSystem, i: nat) {
    i < |t.procs| && forall j :: 0 <= j < |t.procs| && j != i ==> AtRest(t.procs[j])
  }

  function With(t: FundSystem, i: nat, p: Store.Proc<FundState>): FundSystem
    requires i < |t.procs|
  {
    t.(procs := t.procs[i := p])
  }

  /** These steps of fund processes lead from t to u. */
  ghost predicate Plays(t: FundSystem, steps: seq<FundStep>, u: FundSystem) {
    FundSteps(t, steps) && Store.Run(t, steps) == u
  }

  lemma PlayStep(t: FundSystem, steps: seq<FundStep>, u: FundSystem, step: FundStep)
    requires Plays(t, steps, u) && (step.Begin? ==> MayBegin(u, step))
    ensures Plays(t, steps + [step], Store.Do(u, step))
  {
    var more := steps + [step];
    assert more[..|steps|] == steps;
    forall k | 0 <= k < |more| && more[k].Begin?
      ensures MayBegin(Store.Run(t, more[..k]), more[k])
    {
      if k < |steps| {
        assert more[..k] == steps[..k];
      }
    }
  }

  lemma PlayNothing(t: FundSystem)
    ensures Plays(t, [], t)
  {}

  lemma BeginWorks(t: FundSystem, i: nat, job: FundJob)
    requires OthersRest(t, i) && AtRest(t.procs[i])
    ensures Store.Do(t, Store.Begin(i, job)) == With(t, i, Store.Waiting(job))
  {}

  lemma AcquireWorks(t: FundSystem, i: nat, job: FundJob)
    requires OthersRest(t, i) && t.procs[i] == Store.Waiting(job)
    ensures Store.Do(t, Store.Acquire(i)) == With(t, i, Store.Locked(job))
  {
    assert Store.LockFree(t.procs, job);
  }

  lemma WriteWorks(u: FundSystem, i: nat, job: FundJob, next: Store.Stored<FundState>)
    requires i < |u.procs| && u.procs[i] == Store.Mutated(job, next)
    ensures var writing, synced := With(u, i, Store.Writing(job, next)), With(u, i, Store.Synced(job, next));
            var replaced := Store.System(Store.Whole(next), u.procs[i := Store.Replaced(job)], u.commits + [job]);
            && Store.Do(u, Store.OpenTemp(i)) == writing && Store.Do(writing, Store.SyncTemp(i)) == synced
            && Store.Do(synced, Store.Replace(i)) == replaced
            && Store.Do(replaced, Store.Release(i)) == replaced.(procs := u.procs[i := Store.Finished(Store.Committed)])
  {}

  /** From a computed content to the end of the job. */
  lemma PlayWrite(t: FundSystem, steps: seq<FundStep>, u: FundSystem, i: nat, job: FundJob, next: Store.Stored<FundState>)
    returns (more: seq<FundStep>)
    requires Plays(t, steps, u) && i < |u.procs| && u.procs[i] == Store.Mutated(job, next)
    ensures Plays(t, more, Store.System(Store.Whole(next), u.procs[i := Store.Finished(Store.Committed)], u.commits + [job]))
  {
    var u1 := With(u, i, Store.Writing(job, next));
    var u2 := With(u, i, Store.Synced(job, next));
    var u3 := Store.System(Store.Whole(next), u.procs[i := Store.Replaced(job)], u.commits + [job]);
    WriteWorks(u, i, job, next);
    PlayStep(t, steps, u, Store.OpenTemp(i));
    PlayStep(t, steps + [Store.OpenTemp(i)], u1, Store.SyncTemp(i));
    PlayStep(t, steps + [Store.OpenTemp(i)] + [Store.SyncTemp(i)], u2, Store.Replace(i));
    PlayStep(t, steps + [Store.OpenTemp(i)] + [Store.SyncTemp(i)] + [Store.Replace(i)], u3, Store.Release(i));
    more := steps + [Store.OpenTemp(i)] + [Store.SyncTemp(i)] + [Store.Replace(i)] + [Store.Release(i)];
  }

  lemma PlayLocked(t: FundSystem, steps: seq<FundStep>, u: FundSystem, i: nat, job: FundJob) returns (more: seq<FundStep>)
    requires Plays(t, steps, u) && OthersRest(u, i) && AtRest(u.procs[i]) && MayBegin(u, Store.Begin(i, job))
    ensures Plays(t, more, With(u, i, Store.Locked(job)))
  {
    BeginWorks(u, i, job);
    AcquireWorks(With(u, i, Store.Waiting(job)), i, job);
    PlayStep(t, steps, u, Store.Begin(i, job));
    PlayStep(t, steps + [Store.Begin(i, job)], With(u, i, Store.Waiting(job)), Store.Acquire(i));
    more := steps + [Store.Begin(i, job)] + [Store.Acquire(i)];
  }

  /** A whole `create`. */
  lemma PlayCreate(t: FundSystem, steps: seq<FundStep>, u: FundSystem, i: nat, init: FundState) returns (more: seq<FundStep>)
    requires Plays(t, steps, u) && OthersRest(u, i) && AtRest(u.procs[i]) && u.file.Missing? && Fresh(init)
    ensures Plays(t, more, Store.System(Store.Whole(Store.Stored(init, 1)), u.procs[i := Store.Finished(Store.Committed)],
                                        u.commits + [Store.Create(init)]))
  {
    var job := Store.Create(init);
    var locked := PlayLocked(t, steps, u, i, job);
    var v := With(u, i, Store.Locked(job));
    PlayStep(t, locked, v, Store.ReadFile(i));
    assert Store.Do(v, Store.ReadFile(i)) == With(u, i, Store.Mutated(job, Store.Stored(init, 1)));
    more := PlayWrite(t, locked + [Store.ReadFile(i)], With(u, i, Store.Mutated(job, Store.Stored(init, 1))), i, job, Store.Stored(init, 1));
  }

  /** A whole `update`, once it has the lock. */
  lemma PlayUnderLock(t: FundSystem, steps: seq<FundStep>, v: FundSystem, i: nat, job: FundJob, next: FundState)
    returns (more: seq<FundStep>)
    requires Plays(t, steps, v) && i < |v.procs| && v.procs[i] == Store.Locked(job) && v.file.Whole?
    requires job.Update? && job.mutate(v.file.stored.payload) == Some(next)
    ensures Plays(t, more, Store.System(Store.Whole(Store.Stored(next, v.file.stored.revision + 1)),
                                        v.procs[i := Store.Finished(Store.Committed)], v.commits + [job]))
  {
    var stored := Store.Stored(next, v.file.stored.revision + 1);
    var computed := PlayCompute(t, steps, v, i, job, next);
    more := PlayWrite(t, computed, With(v, i, Store.Mutated(job, stored)), i, job, stored);
    assert v.procs[i := Store.Mutated(job, stored)][i := Store.Finished(Store.Committed)] == v.procs[i := Store.Finished(Store.Committed)];
  }

  lemma ReadWorks(v: FundSystem, i: nat, job: FundJob)
    requires i < |v.procs| && v.procs[i] == Store.Locked(job) && job.Update? && v.file.Whole?
    ensures Store.Do(v, Store.ReadFile(i)) == With(v, i, Store.HasRead(job, v.file.stored))
  {}

  lemma MutatorWorks(v: FundSystem, i: nat, job: FundJob, seen: Store.Stored<FundState>, next: FundState)
    requires i < |v.procs| && v.procs[i] == Store.HasRead(job, seen) && job.Update? && job.mutate(seen.payload) == Some(next)
    ensures Store.Do(v, Store.RunMutator(i)) == With(v, i, Store.Mutated(job, Store.Stored(next, seen.revision + 1)))
  {}

  lemma PlayCompute(t: FundSystem, steps: seq<FundStep>, v: FundSystem, i: nat, job: FundJob, next: FundState)
    returns (more: seq<FundStep>)
    requires Plays(t, steps, v) && i < |v.procs| && v.procs[i] == Store.Locked(job) && v.file.Whole?
    requires job.Update? && job.mutate(v.file.stored.payload) == Some(next)
    ensures Plays(t, more, With(v, i, Store.Mutated(job, Store.Stored(next, v.file.stored.revision + 1))))
  {
    var w := With(v, i, Store.HasRead(job, v.file.stored));
    ReadWorks(v, i, job);
    PlayStep(t, steps, v, Store.ReadFile(i));
    MutatorWorks(w, i, job, v.file.stored, next);
    PlayStep(t, steps + [Store.ReadFile(i)], w, Store.RunMutator(i));
    more := steps + [Store.ReadFile(i)] + [Store.RunMutator(i)];
  }

  /** A whole `load`. */
  lemma PlayLoad(t: FundSystem, steps: seq<FundStep>, u: FundSystem, i: nat) returns (more: seq<FundStep>)
    requires Plays(t, steps, u) && OthersRest(u, i) && AtRest(u.procs[i]) && u.file.Whole?
    ensures Plays(t, more, With(u, i, Store.Finished(Store.Loaded(u.file.stored))))
  {
    var job: FundJob := Store.Load;
    var locked := PlayLocked(t, steps, u, i, job);
    var v := With(u, i, Store.Locked(job));
    PlayStep(t, locked, v, Store.ReadFile(i));
    var w := With(u, i, Store.Leaving(Store.Loaded(u.file.stored), true));
    assert Store.Do(v, Store.ReadFile(i)) == w;
    PlayStep(t, locked + [Store.ReadFile(i)], w, Store.Release(i));
    assert Store.Do(w, Store.Release(i)) == With(u, i, Store.Finished(Store.Loaded(u.file.stored)));
    more := locked + [Store.ReadFile(i)] + [Store.Release(i)];
  }

  function JobOf(m: Move): FundJob {
    Store.Update((s: FundState) => Mutation(s, m))
  }

  lemma JobPerforms(m: Move)
    requires NameTrimmed(m) && (m.Act? ==> !m.event.action.ApplyChainStatus?)
    ensures Performs(JobOf(m).mutate, m)
  {}

  // ----- process 0 acts while process 1 is between its load and its move

  /** The file holds this state; process 0 is free, process 1 stands there. */
  ghost predicate Scene(u: FundSystem, s: FundState, other: Store.Proc<FundState>) {
    && |u.procs| == 2 && AtRest(u.procs[0]) && u.procs[1] == other && AtRest(other)
    && u.file.Whole? && u.file.stored.payload == s
  }

  lemma PlayAction(t: FundSystem, steps: seq<FundStep>, u: FundSystem, s: FundState, other: Store.Proc<FundState>, e: Event, next: FundState)
    returns (more: seq<FundStep>, v: FundSystem)
    requires Plays(t, steps, u) && Scene(u, s, other)
    requires Apply(s, e.action, e.now) == Done(next) && e.action.NamesTrimmed() && !e.action.ApplyChainStatus?
    ensures Plays(t, more, v) && Scene(v, next, other)
  {
    JobPerforms(Act(e));
    var locked := PlayLocked(t, steps, u, 0, JobOf(Act(e)));
    more := PlayUnderLock(t, locked, With(u, 0, Store.Locked(JobOf(Act(e)))), 0, JobOf(Act(e)), next);
    v := Store.Run(t, more);
  }

  lemma PlayLateMove(t: FundSystem, steps: seq<FundStep>, u: FundSystem, s: FundState, tested: Store.Stored<FundState>, m: Move)
    returns (more: seq<FundStep>, v: FundSystem)
    requires Plays(t, steps, u) && Scene(u, s, Store.Finished(Store.Loaded(tested)))
    requires m.Late? && Tested(tested.payload, m.id, m.state) && ProposalIndex(s.proposals, Local(m.id)).Some?
    ensures Plays(t, more, v) && Scene(v, Forced(s, m.id, m.state, m.now), Store.Finished(Store.Committed))
  {
    JobPerforms(m);
    var locked := PlayLocked(t, steps, u, 1, JobOf(m));
    more := PlayUnderLock(t, locked, With(u, 1, Store.Locked(JobOf(m))), 1, JobOf(m), Forced(s, m.id, m.state, m.now));
    v := Store.Run(t, more);
  }

  lemma PlayMove(t: FundSystem, steps: seq<FundStep>, u: FundSystem, p: Proposal, other: Store.Proc<FundState>, target: Status)
    returns (more: seq<FundStep>, v: FundSystem, q: Proposal)
    requires Plays(t, steps, u) && Scene(u, Book([], [p], 2), other)
    requires p.id == 1 && p.proposer == "alpha" && target in Transitions(p.status) && target != Vetoed
    ensures Plays(t, more, v) && Scene(v, Book([], [q], 2), other) && q.id == 1 && q.proposer == "alpha" && q.status == target
  {
    var e, moved := MoveEvent([], p, 2, target);
    q := moved;
    more, v := PlayAction(t, steps, u, Book([], [p], 2), other, e, Book([], [q], 2));
  }

  /** Claim a topic and draft it. */
  lemma PlayDraft(t: FundSystem, steps: seq<FundStep>, u: FundSystem, ps: seq<Proposal>, next: nat, other: Store.Proc<FundState>,
                  topic: string) returns (more: seq<FundStep>, v: FundSystem)
    requires Plays(t, steps, u) && Scene(u, Book([], ps, next), other) && |topic| == 1 && 'a' <= topic[0] <= 'z'
    requires OpenCountOf(ps, "alpha") == 0 && OpenCount(ps) < MAX_OPEN_PER_FUND
    ensures Plays(t, more, v) && Scene(v, Book([], ps + [Record(next, topic, Draft)], next + 1), other)
  {
    var claimed := Book([Claim("alpha", topic, CLAIM_TTL, "")], ps, next);
    var e := ClaimEvent(ps, next, topic);
    var m1, v1 := PlayAction(t, steps, u, Book([], ps, next), other, e, claimed);
    var d := DraftEvent(ps, next, topic);
    more, v := PlayAction(t, m1, v1, claimed, other, d, Book([], ps + [Record(next, topic, Draft)], next + 1));
  }

  function Start(): FundSystem {
    Store.System(Store.Missing, [Store.Idle, Store.Idle], [])
  }

  lemma PlayToApproved() returns (steps: seq<FundStep>, u: FundSystem, p: Proposal)
    ensures Plays(Start(), steps, u) && Scene(u, Book([], [p], 2), Store.Idle)
    ensures p.id == 1 && p.proposer == "alpha" && p.status == Approved
  {
    PlayNothing(Start());
    NewFundIsFresh();
    assert Book([], [], 1) == NewFund();
    var s0 := PlayCreate(Start(), [], Start(), 0, NewFund());
    var u0 := Store.Run(Start(), s0);
    var s1, u1 := PlayDraft(Start(), s0, u0, [], 1, Store.Idle, "t");
    assert [] + [Record(1, "t", Draft)] == [Record(1, "t", Draft)];
    var s2, u2, p2 := PlayMove(Start(), s1, u1, Record(1, "t", Draft), Store.Idle, Proposed);
    var s3, u3, p3 := PlayMove(Start(), s2, u2, p2, Store.Idle, Passed);
    steps, u, p := PlayMove(Start(), s3, u3, p3, Store.Idle, Approved);
  }

  lemma ClosedLeavesRoom(q: Proposal)
    requires !IsOpen(q.status) && q.proposer == "alpha"
    ensures OpenCountOf([q], "alpha") == 0 && OpenCount([q]) < MAX_OPEN_PER_FUND
  {
    OneProposal(q);
    assert Lower("alpha") == "alpha";
  }

  /** Process 1 loads the approved proposal and tests the row "executed"; process 0 cancels it, claims another topic and
      drafts that; then process 1 moves. */
  lemma PlayRace() returns (steps: seq<FundStep>, u: FundSystem, q: Proposal)
    ensures Plays(Start(), steps, u) && q.id == 1 && q.proposer == "alpha" && q.status == Cancelled
    ensures u.file.Whole? && u.file.stored.payload == Forced(Book([], [q] + [Record(2, "u", Draft)], 3), 1, Service.ChainExecuted, 0.0)
  {
    var s0, u0, p := PlayToApproved();
    var tested := u0.file.stored;
    var other := Store.Finished(Store.Loaded(tested));
    var s1 := PlayLoad(Start(), s0, u0, 1);
    var u1 := With(u0, 1, other);
    var s2, u2, q2 := PlayMove(Start(), s1, u1, p, other, Cancelled);
    q := q2;
    ClosedLeavesRoom(q);
    var s3, u3 := PlayDraft(Start(), s2, u2, [q], 2, other, "u");
    ApprovedIsTested(p);
    FirstOfTwo(q, Record(2, "u", Draft));
    steps, u := PlayLateMove(Start(), s3, u3, Book([], [q] + [Record(2, "u", Draft)], 3), tested, Late(1, Service.ChainExecuted, 0.0));
  }

  lemma ApprovedIsTested(p: Proposal)
    requires p.id == 1 && p.status == Approved
    ensures Tested(Book([], [p], 2), 1, Service.ChainExecuted)
  {}

  lemma FirstOfTwo(p: Proposal, q: Proposal)
    requires p.id == 1
    ensures ProposalIndex([p] + [q], Local(1)) == Some(0)
  {}

  /** An interleaving of two processes of one fund, from no file at all, after which one agent has two open proposals. */
  lemma QuotasCanBreak() returns (s: FundSystem, steps: seq<FundStep>)
    ensures Store.Initial(s) && FundSteps(s, steps)
    ensures var f := Store.Run(s, steps).file;
            && f.Whole? && |f.stored.payload.proposals| == 2
            && f.stored.payload.proposals[0].proposer == f.stored.payload.proposals[1].proposer
            && IsOpen(f.stored.payload.proposals[0].status) && IsOpen(f.stored.payload.proposals[1].status)
            && !Coordination.OneOpenEach(f.stored.payload.proposals)
  {
    s := Start();
    var u: FundSystem;
    var q: Proposal;
    steps, u, q := PlayRace();
    FirstOfTwo(q, Record(2, "u", Draft));
    var ps := u.file.stored.payload.proposals;
    assert |ps| == 2 && ps[0] == q.(status := Executed) && ps[1] == Record(2, "u", Draft);
  }

  // ----- the receipts

  /** The host records a settlement. */
  lemma PlaySettle(t: FundSystem, steps: seq<FundStep>, u: FundSystem, s: FundState, other: Store.Proc<FundState>)
    returns (more: seq<FundStep>, v: FundSystem, next: FundState)
    requires Plays(t, steps, u) && Scene(u, s, other) && Receipts.OneOfHost(s, Executed)
    ensures Plays(t, more, v) && Scene(v, next, other) && Receipts.OneOfHost(next, Settled)
    ensures |next.receipts| == |s.receipts| + 1 && next.receipts[..|s.receipts|] == s.receipts
    ensures next.receipts[|s.receipts|].proposalId == 1
  {
    next := Receipts.HostSettles(s);
    more, v := PlayAction(t, steps, u, s, other, Event(RecordSettle("alpha", Local(1), 0), 0.0), next);
  }

  /** Process 1 loads the approved proposal and tests the row "executed"; process 0 sets it to executed and settles it. */
  lemma PlayToSettled() returns (steps: seq<FundStep>, u: FundSystem, s: FundState, tested: Store.Stored<FundState>)
    ensures Plays(Start(), steps, u) && Scene(u, s, Store.Finished(Store.Loaded(tested)))
    ensures Tested(tested.payload, 1, Service.ChainExecuted)
    ensures Receipts.OneOfHost(s, Settled) && |s.receipts| == 1 && s.receipts[0].proposalId == 1
  {
    var s0, u0, p := PlayToApproved();
    tested := u0.file.stored;
    var other := Store.Finished(Store.Loaded(tested));
    ApprovedIsTested(p);
    var s1 := PlayLoad(Start(), s0, u0, 1);
    var s2, u2, q := PlayMove(Start(), s1, With(u0, 1, other), p, other, Executed);
    steps, u, s := PlaySettle(Start(), s2, u2, Book([], [q], 2), other);
  }

  /** An interleaving of two processes, from no file at all, after which the shared file has two receipts of one proposal. */
  lemma ReceiptsCanBreak() returns (s: FundSystem, steps: seq<FundStep>)
    ensures Store.Initial(s) && FundSteps(s, steps)
    ensures var f := Store.Run(s, steps).file;
            && f.Whole? && |f.stored.payload.receipts| == 2
            && f.stored.payload.receipts[0].proposalId == f.stored.payload.receipts[1].proposalId
  {
    s := Start();
    var s1, u1, t1, tested := PlayToSettled();
    var late := Late(1, Service.ChainExecuted, 0.0);
    Receipts.LateExecutes(t1);
    var s2, u2 := PlayLateMove(s, s1, u1, t1, tested, late);
    var t2 := Forced(t1, 1, Service.ChainExecuted, 0.0);
    var u3: FundSystem;
    var t3: FundState;
    steps, u3, t3 := PlaySettle(s, s2, u2, t2, Store.Finished(Store.Committed));
    assert t3.receipts[..1][0] == t3.receipts[0];
  }

  // ----- the reservation

  lemma ClaimedBook(q: Proposal)
    requires !IsOpen(q.status) && q.proposer == "alpha" && q.id == 1
    ensures var s := Book([Claim("alpha", "u", CLAIM_TTL, "")], [q], 2);
            && CheckDraft(s, "alpha", Idea("u"), 0.0) == Allow
            && CheckDraft(Forced(s, 1, Service.ChainExecuted, 0.0), "alpha", Idea("u"), 0.0) == Deny(AgentHasOpenProposal)
  {
    var s := Book([Claim("alpha", "u", CLAIM_TTL, "")], [q], 2);
    ClosedLeavesRoom(q);
    HostMayDraft([q], 2, "u", CLAIM_TTL, 0.0);
    var t := Forced(s, 1, Service.ChainExecuted, 0.0);
    HostActs(t);
    GatesOpen(t, 0.0);
    OneProposal(q.(status := Executed));
    assert t.proposals == [q.(status := Executed)];
    assert Lower("alpha") == "alpha";
  }

  /** A run from a fresh fund on which a holder's draft is allowed, and is refused for the quota once a move that was
      tested earlier is made. */
  lemma ReservationCanBreak() returns (s0: FundState, script: Script, k: nat, b: Brief)
    ensures Fresh(s0) && NamesTrimmed(script) && k <= |script|
    ensures Tested(At(s0, script, k), 1, Service.ChainExecuted)
    ensures |After(s0, script).claims| == 1 && After(s0, script).claims[0].agent == "alpha"
    ensures CheckDraft(After(s0, script), "alpha", b, 0.0) == Allow
    ensures CheckDraft(Forced(After(s0, script), 1, Service.ChainExecuted, 0.0), "alpha", b, 0.0) == Deny(AgentHasOpenProposal)
  {
    NewFundIsFresh();
    s0, b := NewFund(), Idea("u");
    var s1, p := ToApproved();
    k := |s1|;
    var e2, q := MoveOn(s1, [], p, 2, Cancelled);
    ClosedLeavesRoom(q);
    var e3 := ClaimEvent([q], 2, "u");
    Extend(s1 + [e2], Book([], [q], 2), e3, Book([Claim("alpha", "u", CLAIM_TTL, "")], [q], 2));
    script := s1 + [e2] + [e3];
    assert script[..k] == s1;
    ApprovedIsTested(p);
    ClaimedBook(q);
  }
}
