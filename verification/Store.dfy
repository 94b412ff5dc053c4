/** The shared fund file (sherwood_monitor/fund/store.py) as a protocol: any number of processes, each holding a shared or
    exclusive lock across read, mutate, temporary write and atomic replace; any of them may time out, raise or crash. */
module Store {
  import opened Text

  /** What the file holds when it is complete. */
  datatype Stored<S> = Stored(payload: S, revision: nat)

  /** A file on disk: absent, partly written, or complete. */
  datatype File<S> = Missing | Half | Whole(stored: Stored<S>)

  /** What a process wants: `load`, `create`, or `update` with a mutator that may raise (None). */
  datatype Job<!S> = Load | Create(init: S) | Update(mutate: S -> Option<S>)

  datatype Result<S> = Loaded(stored: Stored<S>) | Committed | Raised | NotFound | Exists | LockTimeout | WriteFailed | Crashed

  /** Where a process is. From Locked to Replaced it holds the lock: shared for a load, exclusive otherwise. */
  datatype Proc<!S> =
    | Idle
    | Waiting(job: Job<S>)
    | Locked(job: Job<S>)
    | HasRead(job: Job<S>, seen: Stored<S>)
    | Mutated(job: Job<S>, next: Stored<S>)
    | Writing(job: Job<S>, next: Stored<S>)     // its temporary file is Half
    | Synced(job: Job<S>, next: Stored<S>)      // its temporary file is Whole(next)
    | Replaced(job: Job<S>)
    | Leaving(result: Result<S>, shared: bool)  // unwinding, lock still held
    | Finished(result: Result<S>)

  datatype System<!S> = System(file: File<S>, procs: seq<Proc<S>>, commits: seq<Job<S>>)

  predicate HoldsLock<S>(p: Proc<S>) {
    !(p.Idle? || p.Waiting? || p.Finished?)
  }

  predicate HoldsShared<S>(p: Proc<S>) {
    HoldsLock(p) && (if p.Leaving? then p.shared else p.job.Load?)
  }

  predicate HoldsExclusive<S>(p: Proc<S>) {
    HoldsLock(p) && !HoldsShared(p)
  }

  /** `flock(mode | LOCK_NB)` succeeds. */
  predicate LockFree<S>(procs: seq<Proc<S>>, job: Job<S>) {
    forall j :: 0 <= j < |procs| ==> if job.Load? then !HoldsExclusive(procs[j]) else !HoldsLock(procs[j])
  }

  datatype Step<!S> =
    | Begin(i: nat, job: Job<S>)
    | Acquire(i: nat)
    | GiveUp(i: nat)        // LockTimeout
    | ReadFile(i: nat)
    | RunMutator(i: nat)
    | OpenTemp(i: nat)
    | SyncTemp(i: nat)
    | FailWrite(i: nat)     // an exception while writing: the temporary file is unlinked
    | Replace(i: nat)
    | Release(i: nat)
    | Crash(i: nat)         // the operating system drops the lock; the temporary file stays behind, unnamed

  /** The state the process `i` moves to, or None when the step is not possible there. */
  function Moved<S>(s: System<S>, step: Step<S>): Option<Proc<S>> {
    if step.i >= |s.procs| then None
    else
      match (step, s.procs[step.i])
      case (Begin(_, job), Idle) => Some(Waiting(job))
      case (Begin(_, job), Finished(r)) => if r.Crashed? then None else Some(Waiting(job))
      case (Acquire(_), Waiting(job)) => if LockFree(s.procs, job) then Some(Locked(job)) else None
      case (GiveUp(_), Waiting(_)) => Some(Finished(LockTimeout))
      case (ReadFile(_), Locked(job)) =>
        if job.Create? then
          if s.file.Missing? then Some(Mutated(job, Stored(job.init, 1))) else Some(Leaving(Exists, false))
        else if !s.file.Whole? then Some(Leaving(NotFound, job.Load?))
        else if job.Load? then Some(Leaving(Loaded(s.file.stored), true))
        else Some(HasRead(job, s.file.stored))
      case (RunMutator(_), HasRead(job, seen)) =>
        if !job.Update? || job.mutate(seen.payload).None? then Some(Leaving(Raised, false))
        else Some(Mutated(job, Stored(job.mutate(seen.payload).value, seen.revision + 1)))
      case (OpenTemp(_), Mutated(job, next)) => Some(Writing(job, next))
      case (SyncTemp(_), Writing(job, next)) => Some(Synced(job, next))
      case (FailWrite(_), Mutated(_, _)) => Some(Leaving(WriteFailed, false))
      case (FailWrite(_), Writing(_, _)) => Some(Leaving(WriteFailed, false))
      case (FailWrite(_), Synced(_, _)) => Some(Leaving(WriteFailed, false))
      case (Replace(_), Synced(job, _)) => Some(Replaced(job))
      case (Release(_), Replaced(_)) => Some(Finished(Committed))
      case (Release(_), Leaving(result, _)) => Some(Finished(result))
      case (Crash(_), _) => Some(Finished(Crashed))
      case _ => None
  }

  /** The process's temporary file. */
  function Temp<S>(p: Proc<S>): File<S> {
    if p.Writing? then Half else if p.Synced? then Whole(p.next) else Missing
  }

  /** One step of the system; a step that is not possible leaves it as it is. */
  function Do<S>(s: System<S>, step: Step<S>): System<S> {
    var m := Moved(s, step);
    if m.None? then s
    else if step.Replace? then
      System(Temp(s.procs[step.i]), s.procs[step.i := m.value], s.commits + [s.procs[step.i].job])
    else s.(procs := s.procs[step.i := m.value])
  }

  function Run<S>(s: System<S>, steps: seq<Step<S>>): System<S> {
    if steps == [] then s else Do(Run(s, steps[..|steps| - 1]), steps[|steps| - 1])
  }

  /** n processes and no file yet. */
  predicate Initial<S>(s: System<S>) {
    s.file.Missing? && |s.commits| == 0 && forall i :: 0 <= i < |s.procs| ==> s.procs[i].Idle?
  }

  // ----- the sequential meaning

  /** A job run on its own: what it makes of the file. */
  function Effect<S>(file: File<S>, job: Job<S>): File<S> {
    match job
    case Load => file
    case Create(init) => Whole(Stored(init, 1))
    case Update(mutate) =>
      if file.Whole? && mutate(file.stored.payload).Some? then
        Whole(Stored(mutate(file.stored.payload).value, file.stored.revision + 1))
      else file
  }

  /** The committed jobs one after another, each on what the one before it left. */
  function Replay<S>(commits: seq<Job<S>>): File<S> {
    if commits == [] then Missing else Effect(Replay(commits[..|commits| - 1]), commits[|commits| - 1])
  }

  /** The file a writer's next content was computed from is still the file. */
  ghost predicate Current<S>(file: File<S>, p: Proc<S>) {
    match p
    case HasRead(job, seen) => job.Update? && file == Whole(seen)
    case Mutated(job, next) => Computed(file, job, next)
    case Writing(job, next) => Computed(file, job, next)
    case Synced(job, next) => Computed(file, job, next)
    case _ => true
  }

  ghost predicate Computed<S>(file: File<S>, job: Job<S>, next: Stored<S>) {
    match job
    case Load => false
    case Create(init) => file == Missing && next == Stored(init, 1)
    case Update(mutate) =>
      file.Whole? && mutate(file.stored.payload) == Some(next.payload) && next.revision == file.stored.revision + 1
  }

  /** What a load returned (or is about to) was, at some moment, the result of the commits made so far. */
  ghost predicate Honest<S>(commits: seq<Job<S>>, r: Result<S>) {
    r.Loaded? ==> exists k :: 0 <= k <= |commits| && Replay(commits[..k]) == Whole(r.stored)
  }

  ghost predicate HonestProc<S>(commits: seq<Job<S>>, p: Proc<S>) {
    match p
    case Leaving(r, _) => Honest(commits, r)
    case Finished(r) => Honest(commits, r)
    case _ => true
  }

  ghost predicate Exclusion<S>(procs: seq<Proc<S>>) {
    forall i, j :: 0 <= i < |procs| && 0 <= j < |procs| && i != j && HoldsExclusive(procs[i]) ==> !HoldsLock(procs[j])
  }

  /** `create` came first and once; everything after it is an update. */
  ghost predicate WellOrdered<S>(commits: seq<Job<S>>) {
    forall k :: 0 <= k < |commits| ==> if k == 0 then commits[k].Create? else commits[k].Update?
  }

  ghost predicate Inv<S>(s: System<S>) {
    && Exclusion(s.procs)
    && s.file == Replay(s.commits)
    && WellOrdered(s.commits)
    && (s.commits == [] <==> s.file.Missing?)
    && (s.file.Whole? ==> s.file.stored.revision == |s.commits|)
    && !s.file.Half?
    && (forall i :: 0 <= i < |s.procs| ==> Current(s.file, s.procs[i]) && HonestProc(s.commits, s.procs[i]))
  }

  lemma HonestGrows<S>(commits: seq<Job<S>>, job: Job<S>, p: Proc<S>)
    requires HonestProc(commits, p)
    ensures HonestProc(commits + [job], p)
  {
    assert forall k :: 0 <= k <= |commits| ==> (commits + [job])[..k] == commits[..k];
  }

  /** A process that does not hold the lock has nothing computed, so it does not mind a new file. */
  lemma OutsiderIsCurrent<S>(file: File<S>, p: Proc<S>)
    requires !HoldsLock(p) || p.Replaced?
    ensures Current(file, p)
  {}

  lemma ReplaceReplays<S>(commits: seq<Job<S>>, job: Job<S>, next: Stored<S>)
    requires Computed(Replay(commits), job, next) && WellOrdered(commits)
    requires commits == [] <==> Replay(commits).Missing?
    requires Replay(commits).Whole? ==> Replay(commits).stored.revision == |commits|
    ensures Replay(commits + [job]) == Whole(next) && WellOrdered(commits + [job]) && next.revision == |commits| + 1
  {
    assert (commits + [job])[..|commits|] == commits;
  }

  lemma ReplaceKeepsInv<S>(s: System<S>, i: nat)
    requires Inv(s) && i < |s.procs| && s.procs[i].Synced?
    ensures Inv(Do(s, Replace(i)))
  {
    var t := Do(s, Replace(i));
    assert Current(s.file, s.procs[i]);
    ReplaceReplays(s.commits, s.procs[i].job, s.procs[i].next);
    assert HoldsExclusive(s.procs[i]);
    forall j | 0 <= j < |t.procs|
      ensures Current(t.file, t.procs[j]) && HonestProc(t.commits, t.procs[j])
    {
      assert HonestProc(s.commits, s.procs[j]);
      HonestGrows(s.commits, s.procs[i].job, s.procs[j]);
      OutsiderIsCurrent(t.file, t.procs[j]);
    }
  }

  lemma ReadIsHonest<S>(s: System<S>)
    requires Inv(s) && s.file.Whole?
    ensures Honest(s.commits, Loaded(s.file.stored))
  {
    assert s.commits[..|s.commits|] == s.commits;
  }

  lemma MoveKeepsExclusion<S>(s: System<S>, step: Step<S>)
    requires Exclusion(s.procs) && (step.i < |s.procs| ==> Current(s.file, s.procs[step.i]))
    ensures Exclusion(Do(s, step).procs)
  {
    var m := Moved(s, step);
    if m.Some? && !step.Acquire? {
      MoveTakesNoLock(s, step);
    }
  }

  lemma MoveTakesNoLock<S>(s: System<S>, step: Step<S>)
    requires Moved(s, step).Some? && !step.Acquire? && Current(s.file, s.procs[step.i])
    ensures HoldsLock(Moved(s, step).value) ==> HoldsLock(s.procs[step.i])
    ensures HoldsExclusive(Moved(s, step).value) ==> HoldsExclusive(s.procs[step.i])
  {}

  /** Apart from a replace, a process moves on with what it knows of the file. */
  lemma MoveKeepsKnowledge<S>(s: System<S>, step: Step<S>)
    requires Inv(s) && Moved(s, step).Some? && !step.Replace?
    ensures Current(s.file, Moved(s, step).value) && HonestProc(s.commits, Moved(s, step).value)
  {
    if s.file.Whole? {
      ReadIsHonest(s);
    }
    assert Current(s.file, s.procs[step.i]) && HonestProc(s.commits, s.procs[step.i]);
  }

  lemma StepKeepsInv<S>(s: System<S>, step: Step<S>)
    requires Inv(s)
    ensures Inv(Do(s, step))
  {
    var m := Moved(s, step);
    if m.Some? {
      if step.Replace? {
        ReplaceKeepsInv(s, step.i);
      } else {
        MoveKeepsExclusion(s, step);
        MoveKeepsKnowledge(s, step);
      }
    }
  }

  lemma {:induction false} RunKeepsInv<S>(s: System<S>, steps: seq<Step<S>>)
    requires Initial(s)
    ensures Inv(Run(s, steps))
  {
    if steps != [] {
      RunKeepsInv(s, steps[..|steps| - 1]);
      StepKeepsInv(Run(s, steps[..|steps| - 1]), steps[|steps| - 1]);
    }
  }

  /** For any number of processes and any interleaving of their steps, with mutators that raise, lock timeouts, failed
      writes and crashes anywhere: the file is the committed jobs applied one after another in the order of their
      replaces, its revision is one plus the number of committed updates, it is never half-written, and whatever a load
      returned was the file after some prefix of those commits. */
  lemma FileIsSerial<S>(s: System<S>, steps: seq<Step<S>>, i: nat)
    requires Initial(s) && i < |Run(s, steps).procs|
    ensures var t := Run(s, steps);
            && t.file == Replay(t.commits) && !t.file.Half?
            && (t.file.Whole? ==> t.commits[0].Create? && t.file.stored.revision == 1 + |t.commits[1..]|)
            && (t.procs[i].Finished? && t.procs[i].result.Loaded? ==>
                  exists k :: 0 <= k <= |t.commits| && Replay(t.commits[..k]) == Whole(t.procs[i].result.stored))
  {
    RunKeepsInv(s, steps);
    assert HonestProc(Run(s, steps).commits, Run(s, steps).procs[i]);
  }

  lemma OnlyReplaceCommits<S>(s: System<S>, step: Step<S>)
    ensures var t := Do(s, step);
            if step.Replace? && Moved(s, step).Some? then t.commits == s.commits + [s.procs[step.i].job]
            else t.commits == s.commits && t.file == s.file
  {}

  /** The system before step k of a run. */
  function At<S>(s: System<S>, steps: seq<Step<S>>, k: nat): System<S>
    requires k <= |steps|
  {
    Run(s, steps[..k])
  }

  lemma AtNext<S>(s: System<S>, steps: seq<Step<S>>, k: nat)
    requires k < |steps|
    ensures At(s, steps, k + 1) == Do(At(s, steps, k), steps[k])
  {
    assert steps[..k + 1][..k] == steps[..k];
  }

  /** The commits that came in while process i was taking its steps from k to m. */
  function Gained<S>(s: System<S>, steps: seq<Step<S>>, i: nat, k: nat, m: nat): seq<Job<S>>
    requires k <= m <= |steps|
    decreases m
  {
    if k == m then []
    else
      var was, now := At(s, steps, m - 1).commits, At(s, steps, m).commits;
      Gained(s, steps, i, k, m - 1) + (if steps[m - 1].i == i && |was| <= |now| then now[|was|..] else [])
  }

  /** How far a call has come that gained these commits. */
  ghost predicate CallSoFar<S>(p: Proc<S>, job: Job<S>, gained: seq<Job<S>>) {
    match p
    case Idle => false
    case Leaving(r, _) => gained == [] && !r.Committed? && !r.Crashed?
    case Finished(r) => if r.Committed? then gained == [job] else gained == [] || (r.Crashed? && gained == [job])
    case Replaced(_) => p.job == job && gained == [job]
    case _ => p.job == job && gained == []
  }

  lemma CallStep<S>(s: System<S>, step: Step<S>, i: nat, job: Job<S>, gained: seq<Job<S>>)
    requires i < |s.procs| && CallSoFar(s.procs[i], job, gained) && !s.procs[i].Finished?
    ensures var t := Do(s, step);
            && i < |t.procs| && |s.commits| <= |t.commits|
            && CallSoFar(t.procs[i], job, gained + (if step.i == i then t.commits[|s.commits|..] else []))
  {
    OnlyReplaceCommits(s, step);
    assert gained + [] == gained && [] + [job] == [job];
  }

  /** A call's report is the truth about its commit: in any interleaving, between the moment process i takes up a job and
      the moment it next ends, its steps commit that job once if the call reports a commit, not at all if it reports
      anything else, and at most once if it crashes. */
  lemma {:induction false} CallCommitsIff<S>(s: System<S>, steps: seq<Step<S>>, i: nat, job: Job<S>, k: nat, m: nat)
    requires k < m <= |steps| && i < |At(s, steps, k).procs|
    requires steps[k] == Begin(i, job) && Moved(At(s, steps, k), steps[k]).Some?
    requires forall j :: k < j < m && i < |At(s, steps, j).procs| ==> !At(s, steps, j).procs[i].Finished?
    ensures i < |At(s, steps, m).procs|
    ensures CallSoFar(At(s, steps, m).procs[i], job, Gained(s, steps, i, k, m))
    ensures At(s, steps, m).procs[i].Finished? ==>
              var r := At(s, steps, m).procs[i].result;
              && (r.Committed? ==> Gained(s, steps, i, k, m) == [job])
              && (!r.Committed? && !r.Crashed? ==> Gained(s, steps, i, k, m) == [])
              && |Gained(s, steps, i, k, m)| <= 1
    decreases m
  {
    AtNext(s, steps, m - 1);
    if m == k + 1 {
      assert Gained(s, steps, i, k, k) == [];
      OnlyReplaceCommits(At(s, steps, k), steps[k]);
    } else {
      CallCommitsIff(s, steps, i, job, k, m - 1);
      CallStep(At(s, steps, m - 1), steps[m - 1], i, job, Gained(s, steps, i, k, m - 1));
    }
  }

  /** No update is lost: whoever is about to replace computed its content from the very file it replaces. */
  lemma NoLostUpdate<S>(s: System<S>, steps: seq<Step<S>>, i: nat)
    requires Initial(s)
    requires var t := Run(s, steps); i < |t.procs| && t.procs[i].Synced? && t.procs[i].job.Update?
    ensures var t := Run(s, steps);
            && t.file.Whole?
            && t.procs[i].job.mutate(t.file.stored.payload) == Some(t.procs[i].next.payload)
            && Do(t, Replace(i)).file == Whole(Stored(t.procs[i].next.payload, t.file.stored.revision + 1))
  {
    RunKeepsInv(s, steps);
    assert Current(Run(s, steps).file, Run(s, steps).procs[i]);
  }

  // ----- a call that nobody disturbs

  /** What it reports, and the file it leaves. */
  function Report<S>(file: File<S>, job: Job<S>): Result<S> {
    match job
    case Load => if file.Whole? then Loaded(file.stored) else NotFound
    case Create(_) => if file.Missing? then Committed else Exists
    case Update(mutate) => if !file.Whole? then NotFound else if mutate(file.stored.payload).None? then Raised else Committed
  }

  /** While the lock is taken a waiting call can only give up, and says that it timed out, or crash. */
  lemma Blocked<S>(s: System<S>, step: Step<S>)
    requires step.i < |s.procs| && s.procs[step.i].Waiting? && !LockFree(s.procs, s.procs[step.i].job)
    ensures var t := Do(s, step);
            && t.file == s.file && t.commits == s.commits
            && t.procs[step.i] == if step.GiveUp? then Finished(LockTimeout) else if step.Crash? then Finished(Crashed) else s.procs[step.i]
  {}

  lemma RunSnoc<S>(s: System<S>, steps: seq<Step<S>>, step: Step<S>)
    ensures Run(s, steps + [step]) == Do(Run(s, steps), step)
  {
    assert (steps + [step])[..|steps|] == steps;
  }

  lemma UpToRead<S>(s: System<S>, i: nat, job: Job<S>) returns (steps: seq<Step<S>>)
    requires i < |s.procs| && s.procs[i].Idle? && forall j :: 0 <= j < |s.procs| ==> !HoldsLock(s.procs[j])
    ensures var t := Run(s, steps); t.file == s.file && t.commits == s.commits && |t.procs| == |s.procs| && t.procs[i] == Locked(job)
  {
    steps := [];
    RunSnoc(s, steps, Begin(i, job));
    steps := steps + [Begin(i, job)];
    RunSnoc(s, steps, Acquire(i));
    steps := steps + [Acquire(i)];
  }

  lemma FromComputed<S>(s: System<S>, steps: seq<Step<S>>, i: nat, job: Job<S>, next: Stored<S>) returns (more: seq<Step<S>>)
    requires var t := Run(s, steps); i < |t.procs| && t.procs[i] == Mutated(job, next)
    ensures var t, u := Run(s, steps), Run(s, more);
            u.file == Whole(next) && u.commits == t.commits + [job] && i < |u.procs| && u.procs[i] == Finished(Committed)
  {
    var t := Run(s, steps);
    RunSnoc(s, steps, OpenTemp(i));
    more := steps + [OpenTemp(i)];
    RunSnoc(s, more, SyncTemp(i));
    more := more + [SyncTemp(i)];
    SyncedAfter(t, i, job, next);
    RunSnoc(s, more, Replace(i));
    more := more + [Replace(i)];
    RunSnoc(s, more, Release(i));
    more := more + [Release(i)];
    ReplacedAfter(t.(procs := t.procs[i := Synced(job, next)]), i, job, next);
  }

  lemma SyncedAfter<S>(t: System<S>, i: nat, job: Job<S>, next: Stored<S>)
    requires i < |t.procs| && t.procs[i] == Mutated(job, next)
    ensures Do(Do(t, OpenTemp(i)), SyncTemp(i)) == t.(procs := t.procs[i := Synced(job, next)])
  {
    var u := Do(t, OpenTemp(i));
    assert u == t.(procs := t.procs[i := Writing(job, next)]);
    assert u.procs[i := Synced(job, next)] == t.procs[i := Synced(job, next)];
  }

  lemma ReplacedAfter<S>(t: System<S>, i: nat, job: Job<S>, next: Stored<S>)
    requires i < |t.procs| && t.procs[i] == Synced(job, next)
    ensures Do(Do(t, Replace(i)), Release(i)) == System(Whole(next), t.procs[i := Finished(Committed)], t.commits + [job])
  {
    var u := Do(t, Replace(i));
    assert u == System(Whole(next), t.procs[i := Replaced(job)], t.commits + [job]);
    assert u.procs[i := Finished(Committed)] == t.procs[i := Finished(Committed)];
  }

  /** With the lock free and nobody else moving, a call can run to its end: it reports what the file says, and leaves what the
      job makes of it. */
  lemma Undisturbed<S>(s: System<S>, i: nat, job: Job<S>) returns (steps: seq<Step<S>>)
    requires i < |s.procs| && s.procs[i].Idle? && forall j :: 0 <= j < |s.procs| ==> !HoldsLock(s.procs[j])
    ensures var t := Run(s, steps);
            && i < |t.procs| && t.procs[i] == Finished(Report(s.file, job))
            && t.file == (if Report(s.file, job).Committed? then Effect(s.file, job) else s.file)
            && t.commits == (if Report(s.file, job).Committed? then s.commits + [job] else s.commits)
  {
    steps := UpToRead(s, i, job);
    RunSnoc(s, steps, ReadFile(i));
    steps := steps + [ReadFile(i)];
    if job.Create? && s.file.Missing? {
      steps := FromComputed(s, steps, i, job, Stored(job.init, 1));
    } else if job.Update? && s.file.Whole? {
      RunSnoc(s, steps, RunMutator(i));
      steps := steps + [RunMutator(i)];
      var r := job.mutate(s.file.stored.payload);
      if r.Some? {
        steps := FromComputed(s, steps, i, job, Stored(r.value, s.file.stored.revision + 1));
      } else {
        RunSnoc(s, steps, Release(i));
        steps := steps + [Release(i)];
      }
    } else {
      RunSnoc(s, steps, Release(i));
      steps := steps + [Release(i)];
    }
  }
}
