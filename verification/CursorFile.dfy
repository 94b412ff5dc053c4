/** The shared cursor file of the autonomous tick (sherwood_monitor/cron_tick.py) as a protocol of any number of funds and
    processes. A schedule says which tick does what when. What an entry of the file is, and what a tick makes of the entry
    it read, are parameters: for the cursors they are in CursorRuns; here they are sets of ticks, which tell on whose work
    an entry builds. */
module CursorFile {

  /** A tick reads its entry, asks the session, then loads the file again, changes its entry and saves. */
  datatype Phase<E> = Open | Reloaded(copy: map<string, E>) | Closed

  datatype Tick<E> = Tick(process: nat, fund: string, seen: E, phase: Phase<E>)

  datatype System<E> = System(file: map<string, E>, ticks: seq<Tick<E>>, saved: set<nat>)

  datatype Step =
    | Begin(process: nat, fund: string)
    | Reload(tick: nat)
    | Save(tick: nat)
    | Drop(tick: nat)    // the session check or the save failed, or the process ended

  function Entry<E>(file: map<string, E>, fund: string, zero: E): E {
    if fund in file then file[fund] else zero
  }

  /** The lock is an object of the process: it keeps that process's ticks out, and no others. */
  predicate Locked<E>(ticks: seq<Tick<E>>, process: nat) {
    exists k :: 0 <= k < |ticks| && ticks[k].process == process && ticks[k].phase.Reloaded?
  }

  predicate Begins<E>(s: System<E>, step: Step) {
    step.Begin? && !Locked(s.ticks, step.process)
  }

  predicate Reloads<E>(s: System<E>, step: Step) {
    step.Reload? && step.tick < |s.ticks| && s.ticks[step.tick].phase.Open? && !Locked(s.ticks, s.ticks[step.tick].process)
  }

  predicate Saves<E>(s: System<E>, step: Step) {
    step.Save? && step.tick < |s.ticks| && s.ticks[step.tick].phase.Reloaded?
  }

  predicate Drops<E>(s: System<E>, step: Step) {
    step.Drop? && step.tick < |s.ticks| && !s.ticks[step.tick].phase.Closed?
  }

  /** One step; one that is not possible leaves everything as it is. */
  function Do<E>(s: System<E>, step: Step, build: (nat, E) -> E, zero: E): System<E> {
    if Begins(s, step) then
      s.(ticks := s.ticks + [Tick(step.process, step.fund, Entry(s.file, step.fund, zero), Open)])
    else if Reloads(s, step) then
      s.(ticks := s.ticks[step.tick := s.ticks[step.tick].(phase := Reloaded(s.file))])
    else if Saves(s, step) then
      var t := s.ticks[step.tick];
      System(t.phase.copy[t.fund := build(step.tick, t.seen)], s.ticks[step.tick := t.(phase := Closed)], s.saved + {step.tick})
    else if Drops(s, step) then
      s.(ticks := s.ticks[step.tick := s.ticks[step.tick].(phase := Closed)])
    else s
  }

  function Run<E>(s: System<E>, steps: seq<Step>, build: (nat, E) -> E, zero: E): System<E> {
    if steps == [] then s else Do(Run(s, steps[..|steps| - 1], build, zero), steps[|steps| - 1], build, zero)
  }

  lemma RunStep<E>(s: System<E>, steps: seq<Step>, n: nat, build: (nat, E) -> E, zero: E)
    requires n < |steps|
    ensures Run(s, steps[..n + 1], build, zero) == Do(Run(s, steps[..n], build, zero), steps[n], build, zero)
  {
    assert steps[..n + 1][..n] == steps[..n];
  }

  // ----- two kinds of entries under one schedule

  /** The same ticks are at the same places. */
  predicate Alike<A, B>(t: System<A>, u: System<B>) {
    && |t.ticks| == |u.ticks| && t.saved == u.saved
    && forall k :: 0 <= k < |t.ticks| ==>
         && t.ticks[k].process == u.ticks[k].process && t.ticks[k].fund == u.ticks[k].fund
         && t.ticks[k].phase.Open? == u.ticks[k].phase.Open? && t.ticks[k].phase.Reloaded? == u.ticks[k].phase.Reloaded?
  }

  /** All entries of the fund, in the file, in the copies and as its ticks read them, are related. */
  ghost predicate Related<A(!new), B(!new)>(t: System<A>, u: System<B>, fund: string, zeroA: A, zeroB: B, rel: (A, B) -> bool) {
    && Alike(t, u) && rel(Entry(t.file, fund, zeroA), Entry(u.file, fund, zeroB))
    && (forall k :: 0 <= k < |t.ticks| && t.ticks[k].fund == fund ==> rel(t.ticks[k].seen, u.ticks[k].seen))
    && (forall k :: 0 <= k < |t.ticks| && t.ticks[k].phase.Reloaded? ==>
          rel(Entry(t.ticks[k].phase.copy, fund, zeroA), Entry(u.ticks[k].phase.copy, fund, zeroB)))
  }

  lemma AlikeSteps<A, B>(t: System<A>, u: System<B>, step: Step)
    requires Alike(t, u)
    ensures Begins(t, step) == Begins(u, step) && Reloads(t, step) == Reloads(u, step)
    ensures Saves(t, step) == Saves(u, step) && Drops(t, step) == Drops(u, step)
  {
    assert forall p :: Locked(t.ticks, p) == Locked(u.ticks, p);
  }

  lemma StepRelates<A(!new), B(!new)>(t: System<A>, u: System<B>, step: Step, fund: string, buildA: (nat, A) -> A, zeroA: A,
                                      buildB: (nat, B) -> B, zeroB: B, rel: (A, B) -> bool)
    requires Related(t, u, fund, zeroA, zeroB, rel) && forall k, a, b :: rel(a, b) ==> rel(buildA(k, a), buildB(k, b))
    ensures Related(Do(t, step, buildA, zeroA), Do(u, step, buildB, zeroB), fund, zeroA, zeroB, rel)
  {
    AlikeSteps(t, u, step);
  }

  lemma {:induction false} RunRelates<A(!new), B(!new)>(s: System<A>, r: System<B>, steps: seq<Step>, fund: string,
                                                        buildA: (nat, A) -> A, zeroA: A, buildB: (nat, B) -> B, zeroB: B,
                                                        rel: (A, B) -> bool)
    requires Related(s, r, fund, zeroA, zeroB, rel) && forall k, a, b :: rel(a, b) ==> rel(buildA(k, a), buildB(k, b))
    ensures Related(Run(s, steps, buildA, zeroA), Run(r, steps, buildB, zeroB), fund, zeroA, zeroB, rel)
  {
    if steps != [] {
      var n := |steps| - 1;
      RunRelates(s, r, steps[..n], fund, buildA, zeroA, buildB, zeroB, rel);
      StepRelates(Run(s, steps[..n], buildA, zeroA), Run(r, steps[..n], buildB, zeroB), steps[n], fund,
                  buildA, zeroA, buildB, zeroB, rel);
    }
  }

  // ----- on whose work an entry builds

  type Line = set<nat>

  function AddTick(k: nat, line: Line): Line {
    line + {k}
  }

  const NOBODY: System<Line> := System(map[], [], {})

  /** The schedule from an idle start; an entry is the set of the ticks it builds on. */
  function Lines(steps: seq<Step>): System<Line> {
    Run(NOBODY, steps, AddTick, {})
  }

  function LineOf(t: System<Line>, fund: string): Line {
    Entry(t.file, fund, {})
  }

  lemma LinesStep(steps: seq<Step>, n: nat)
    requires n < |steps|
    ensures Lines(steps[..n + 1]) == Do(Lines(steps[..n]), steps[n], AddTick, {})
  {
    RunStep(NOBODY, steps, n, AddTick, {});
  }

  /** Step n saves tick k, a tick of this fund. */
  predicate SavesAt(steps: seq<Step>, n: nat, k: nat, fund: string) {
    && n < |steps| && steps[n] == Save(k) && Saves(Lines(steps[..n]), steps[n])
    && Lines(steps[..n]).ticks[k].fund == fund
  }

  /** Ticks i and j of the fund are both saved, and j begins before i is. */
  predicate Overlapping(steps: seq<Step>, fund: string, i: nat, j: nat, p: nat, q: nat) {
    p < q && SavesAt(steps, p, i, fund) && SavesAt(steps, q, j, fund) && j < |Lines(steps[..p]).ticks|
  }

  ghost predicate Overlap(steps: seq<Step>, fund: string) {
    exists i: nat, j: nat, p: nat, q: nat :: Overlapping(steps, fund, i, j, p, q)
  }

  /** Tick i of the fund is saved while tick k of another fund holds a copy of the file, which is saved after it. */
  predicate WritesBack(steps: seq<Step>, fund: string, other: string, i: nat, k: nat, p: nat, q: nat) {
    && p < q && other != fund && SavesAt(steps, p, i, fund) && SavesAt(steps, q, k, other)
    && k < |Lines(steps[..p]).ticks| && Lines(steps[..p]).ticks[k].phase.Reloaded?
  }

  ghost predicate WriteBack(steps: seq<Step>, fund: string) {
    exists other, i: nat, k: nat, p: nat, q: nat :: WritesBack(steps, fund, other, i, k, p, q)
  }

  /** Two saved ticks of the fund overlap, or a save of another fund writes back an older copy. */
  ghost predicate Hazard(steps: seq<Step>, fund: string) {
    Overlap(steps, fund) || WriteBack(steps, fund)
  }

  /** Step n takes a tick out of those that the fund's entry builds on. */
  predicate LosesAt(steps: seq<Step>, fund: string, n: nat) {
    n < |steps| && !(LineOf(Lines(steps[..n]), fund) <= LineOf(Lines(steps[..n + 1]), fund))
  }

  /** Tick j of the fund is saved after tick i and does not build on it. */
  predicate Unheard(steps: seq<Step>, fund: string, i: nat, j: nat, p: nat, q: nat) {
    p < q && SavesAt(steps, p, i, fund) && SavesAt(steps, q, j, fund) && i !in Lines(steps[..q]).ticks[j].seen
  }

  ghost predicate SomeUnheard(steps: seq<Step>, fund: string) {
    exists i: nat, j: nat, p: nat, q: nat :: Unheard(steps, fund, i, j, p, q)
  }

  // ----- what every schedule keeps

  function Rank<E>(phase: Phase<E>): nat {
    match phase
    case Open => 0
    case Reloaded(_) => 1
    case Closed => 2
  }

  /** A tick keeps its process, fund and reading, goes through its phases in order, and keeps its copy while it has one. */
  predicate Grown<E(==)>(t: System<E>, u: System<E>) {
    && |t.ticks| <= |u.ticks| && t.saved <= u.saved
    && forall k :: 0 <= k < |t.ticks| ==>
         && u.ticks[k].process == t.ticks[k].process && u.ticks[k].fund == t.ticks[k].fund && u.ticks[k].seen == t.ticks[k].seen
         && Rank(t.ticks[k].phase) <= Rank(u.ticks[k].phase)
         && (t.ticks[k].phase.Reloaded? && u.ticks[k].phase.Reloaded? ==> u.ticks[k].phase == t.ticks[k].phase)
  }

  lemma StepGrows<E>(t: System<E>, step: Step, build: (nat, E) -> E, zero: E)
    ensures Grown(t, Do(t, step, build, zero))
  {}

  lemma GrownTransitive<E>(t: System<E>, u: System<E>, v: System<E>)
    requires Grown(t, u) && Grown(u, v)
    ensures Grown(t, v)
  {
    assert forall k :: 0 <= k < |t.ticks| ==> u.ticks[k].fund == t.ticks[k].fund;
  }

  lemma {:induction false} LinesGrow(steps: seq<Step>, n: nat, m: nat)
    requires n <= m <= |steps|
    ensures Grown(Lines(steps[..n]), Lines(steps[..m]))
    decreases m
  {
    if n < m {
      LinesGrow(steps, n, m - 1);
      LinesStep(steps, m - 1);
      StepGrows(Lines(steps[..m - 1]), steps[m - 1], AddTick, {});
      GrownTransitive(Lines(steps[..n]), Lines(steps[..m - 1]), Lines(steps[..m]));
    }
  }

  /** One tick of a process at a time has the lock. */
  predicate OneLock<E>(t: System<E>) {
    forall j, k :: 0 <= j < k < |t.ticks| && t.ticks[j].phase.Reloaded? && t.ticks[k].phase.Reloaded?
      ==> t.ticks[j].process != t.ticks[k].process
  }

  predicate SavedClosed<E>(t: System<E>) {
    forall k :: k in t.saved ==> k < |t.ticks| && t.ticks[k].phase.Closed?
  }

  /** These are saved ticks of the fund. */
  ghost predicate Known(t: System<Line>, fund: string, line: Line) {
    forall k :: k in line ==> k in t.saved && k < |t.ticks| && t.ticks[k].fund == fund
  }

  ghost predicate AllKnown(t: System<Line>, fund: string) {
    && Known(t, fund, LineOf(t, fund))
    && (forall j :: 0 <= j < |t.ticks| && t.ticks[j].fund == fund ==> Known(t, fund, t.ticks[j].seen))
    && (forall j :: 0 <= j < |t.ticks| && t.ticks[j].phase.Reloaded? ==> Known(t, fund, Entry(t.ticks[j].phase.copy, fund, {})))
  }

  ghost predicate Tidy(t: System<Line>) {
    OneLock(t) && SavedClosed(t) && forall fund :: AllKnown(t, fund)
  }

  lemma KnownGrows(t: System<Line>, u: System<Line>, fund: string, line: Line)
    requires Grown(t, u) && Known(t, fund, line)
    ensures Known(u, fund, line)
  {}

  lemma SaveKnows(t: System<Line>, k: nat, fund: string)
    requires AllKnown(t, fund) && Saves(t, Save(k))
    ensures var u := Do(t, Save(k), AddTick, {}); Known(u, fund, LineOf(u, fund))
  {
    var u := Do(t, Save(k), AddTick, {});
    StepGrows(t, Save(k), AddTick, {});
    if t.ticks[k].fund == fund {
      KnownGrows(t, u, fund, t.ticks[k].seen);
    } else {
      KnownGrows(t, u, fund, Entry(t.ticks[k].phase.copy, fund, {}));
    }
  }

  lemma StepKnows(t: System<Line>, step: Step, fund: string)
    requires AllKnown(t, fund)
    ensures AllKnown(Do(t, step, AddTick, {}), fund)
  {
    var u := Do(t, step, AddTick, {});
    StepGrows(t, step, AddTick, {});
    KnownGrows(t, u, fund, LineOf(t, fund));
    if Saves(t, step) {
      SaveKnows(t, step.tick, fund);
    }
    forall j | 0 <= j < |u.ticks| && u.ticks[j].fund == fund
      ensures Known(u, fund, u.ticks[j].seen)
    {
      if j < |t.ticks| {
        KnownGrows(t, u, fund, t.ticks[j].seen);
      }
    }
    forall j | 0 <= j < |u.ticks| && u.ticks[j].phase.Reloaded?
      ensures Known(u, fund, Entry(u.ticks[j].phase.copy, fund, {}))
    {
      if t.ticks[j].phase.Reloaded? {
        KnownGrows(t, u, fund, Entry(t.ticks[j].phase.copy, fund, {}));
      }
    }
  }

  lemma StepTidy(t: System<Line>, step: Step)
    requires Tidy(t)
    ensures Tidy(Do(t, step, AddTick, {}))
  {
    forall fund
      ensures AllKnown(Do(t, step, AddTick, {}), fund)
    {
      StepKnows(t, step, fund);
    }
    StepLocks(t, step);
  }

  lemma StepLocks(t: System<Line>, step: Step)
    requires OneLock(t) && SavedClosed(t)
    ensures OneLock(Do(t, step, AddTick, {})) && SavedClosed(Do(t, step, AddTick, {}))
  {}

  lemma {:induction false} LinesTidy(steps: seq<Step>)
    ensures Tidy(Lines(steps))
  {
    if steps != [] {
      var n := |steps| - 1;
      LinesTidy(steps[..n]);
      StepTidy(Lines(steps[..n]), steps[n]);
    }
  }

  // ----- without a hazard

  /** Some step from n on saves tick k. */
  predicate WillSave(steps: seq<Step>, n: nat, k: nat, fund: string) {
    exists q :: n <= q < |steps| && SavesAt(steps, q, k, fund)
  }

  /** The fund's entry builds on all its saved ticks. The ticks of the fund that will be saved have read this entry, and the
      copies of ticks of other funds that will be saved have it. */
  ghost predicate Clean(steps: seq<Step>, n: nat, fund: string)
    requires n <= |steps|
  {
    var t := Lines(steps[..n]);
    && (forall k :: 0 <= k < |t.ticks| && k in t.saved && t.ticks[k].fund == fund ==> k in LineOf(t, fund))
    && (forall k :: 0 <= k < |t.ticks| && t.ticks[k].fund == fund && WillSave(steps, n, k, fund) ==> t.ticks[k].seen == LineOf(t, fund))
    && (forall k :: 0 <= k < |t.ticks| && t.ticks[k].fund != fund && t.ticks[k].phase.Reloaded? && WillSave(steps, n, k, t.ticks[k].fund)
          ==> Entry(t.ticks[k].phase.copy, fund, {}) == LineOf(t, fund))
  }

  /** When one of the fund's ticks is saved, another that will be overlaps it, and another fund's that has a copy and will
      be writes back. */
  lemma RivalIsHazard(steps: seq<Step>, n: nat, i: nat, k: nat, fund: string)
    requires SavesAt(steps, n, i, fund) && k < |Lines(steps[..n]).ticks|
    requires var t := Lines(steps[..n]).ticks[k];
             WillSave(steps, n + 1, k, t.fund) && (t.fund == fund || t.phase.Reloaded?)
    ensures Hazard(steps, fund)
  {
    var other := Lines(steps[..n]).ticks[k].fund;
    var q: nat :| n + 1 <= q < |steps| && SavesAt(steps, q, k, other);
    if other == fund {
      assert Overlapping(steps, fund, i, k, n, q);
    } else {
      assert WritesBack(steps, fund, other, i, k, n, q);
    }
  }

  lemma OwnSaveKeepsClean(steps: seq<Step>, n: nat, i: nat, fund: string)
    requires n < |steps| && Clean(steps, n, fund) && SavesAt(steps, n, i, fund) && !Hazard(steps, fund)
    ensures Clean(steps, n + 1, fund) && LineOf(Lines(steps[..n]), fund) <= LineOf(Lines(steps[..n + 1]), fund)
  {
    var t, u := Lines(steps[..n]), Lines(steps[..n + 1]);
    LinesStep(steps, n);
    assert WillSave(steps, n, i, fund);
    forall k | 0 <= k < |t.ticks| && (t.ticks[k].fund == fund || t.ticks[k].phase.Reloaded?)
      ensures !WillSave(steps, n + 1, k, t.ticks[k].fund)
    {
      if WillSave(steps, n + 1, k, t.ticks[k].fund) {
        RivalIsHazard(steps, n, i, k, fund);
      }
    }
  }

  lemma ForeignSaveKeepsClean(steps: seq<Step>, n: nat, k: nat, other: string, fund: string)
    requires n < |steps| && Clean(steps, n, fund) && SavesAt(steps, n, k, other) && other != fund
    ensures Clean(steps, n + 1, fund) && LineOf(Lines(steps[..n + 1]), fund) == LineOf(Lines(steps[..n]), fund)
  {
    LinesStep(steps, n);
    assert WillSave(steps, n, k, other);
    WillSaveEarlier(steps, n);
  }

  lemma WillSaveEarlier(steps: seq<Step>, n: nat)
    ensures forall k, fund :: WillSave(steps, n + 1, k, fund) ==> WillSave(steps, n, k, fund)
  {}

  lemma OtherStepKeepsClean(steps: seq<Step>, n: nat, fund: string)
    requires n < |steps| && Clean(steps, n, fund) && !Saves(Lines(steps[..n]), steps[n])
    ensures Clean(steps, n + 1, fund) && LineOf(Lines(steps[..n + 1]), fund) == LineOf(Lines(steps[..n]), fund)
  {
    LinesTidy(steps[..n]);
    LinesStep(steps, n);
    WillSaveEarlier(steps, n);
  }

  lemma {:induction false} NoHazardIsClean(steps: seq<Step>, n: nat, fund: string)
    requires n <= |steps| && !Hazard(steps, fund)
    ensures Clean(steps, n, fund)
    ensures n > 0 ==> !LosesAt(steps, fund, n - 1)
  {
    if n > 0 {
      NoHazardIsClean(steps, n - 1, fund);
      var t, step := Lines(steps[..n - 1]), steps[n - 1];
      if Saves(t, step) {
        var other := t.ticks[step.tick].fund;
        if other == fund {
          OwnSaveKeepsClean(steps, n - 1, step.tick, fund);
        } else {
          ForeignSaveKeepsClean(steps, n - 1, step.tick, other, fund);
        }
      } else {
        OtherStepKeepsClean(steps, n - 1, fund);
      }
    }
  }

  /** A tick that does not build on one saved before it: there is a hazard. */
  lemma UnheardIsHazard(steps: seq<Step>, fund: string)
    requires SomeUnheard(steps, fund)
    ensures Hazard(steps, fund)
  {
    var i: nat, j: nat, p: nat, q: nat :| Unheard(steps, fund, i, j, p, q);
    UnheardIsUnclean(steps, fund, i, j, p, q);
    if !Hazard(steps, fund) {
      NoHazardIsClean(steps, q, fund);
    }
  }

  lemma UnheardIsUnclean(steps: seq<Step>, fund: string, i: nat, j: nat, p: nat, q: nat)
    requires Unheard(steps, fund, i, j, p, q)
    ensures !Clean(steps, q, fund)
  {
    SavedIsKnown(steps, i, p, q, fund);
    assert WillSave(steps, q, j, fund);
  }

  lemma SavedIsKnown(steps: seq<Step>, i: nat, p: nat, q: nat, fund: string)
    requires SavesAt(steps, p, i, fund) && p < q <= |steps|
    ensures var t := Lines(steps[..q]); i in t.saved && i < |t.ticks| && t.ticks[i].fund == fund && t.ticks[i].phase.Closed?
  {
    LinesStep(steps, p);
    LinesGrow(steps, p + 1, q);
  }

  // ----- with a hazard

  /** The save of tick i puts it on the line. */
  lemma SaveAdds(steps: seq<Step>, i: nat, p: nat, fund: string)
    requires SavesAt(steps, p, i, fund)
    ensures i in LineOf(Lines(steps[..p + 1]), fund)
    ensures LineOf(Lines(steps[..p + 1]), fund) == Lines(steps[..p]).ticks[i].seen + {i}
    ensures i !in Lines(steps[..p]).saved
  {
    LinesStep(steps, p);
    LinesTidy(steps[..p]);
  }

  lemma OverlapIsUnheard(steps: seq<Step>, fund: string, i: nat, j: nat, p: nat, q: nat)
    requires Overlapping(steps, fund, i, j, p, q)
    ensures Unheard(steps, fund, i, j, p, q) && i != j && i !in LineOf(Lines(steps[..q + 1]), fund)
  {
    SaveAdds(steps, i, p, fund);
    SaveAdds(steps, j, q, fund);
    SavedIsKnown(steps, i, p, q, fund);
    LinesTidy(steps[..p]);
    LinesGrow(steps, p, q);
    assert AllKnown(Lines(steps[..p]), fund);
  }

  lemma WriteBackDrops(steps: seq<Step>, fund: string, other: string, i: nat, k: nat, p: nat, q: nat)
    requires WritesBack(steps, fund, other, i, k, p, q)
    ensures i !in LineOf(Lines(steps[..q + 1]), fund)
  {
    SaveAdds(steps, i, p, fund);
    LinesTidy(steps[..p]);
    LinesGrow(steps, p, q);
    LinesStep(steps, q);
    var copy := Lines(steps[..p]).ticks[k].phase.copy;
    assert AllKnown(Lines(steps[..p]), fund);
    assert Lines(steps[..q]).ticks[k].phase.copy == copy;
  }

  /** Two of the fund's ticks overlap, and the next thing that happens after the second is saved is that a tick of the fund
      begins: if that tick is saved, it does not build on the first. */
  lemma NextIsUnheard(steps: seq<Step>, fund: string, i: nat, j: nat, p: nat, q: nat, l: nat, r: nat)
    requires Overlapping(steps, fund, i, j, p, q) && q + 1 < |steps| && SavesAt(steps, r, l, fund)
    requires Begins(Lines(steps[..q + 1]), steps[q + 1]) && steps[q + 1].fund == fund && l == |Lines(steps[..q + 1]).ticks|
    ensures Unheard(steps, fund, i, l, p, r)
  {
    OverlapIsUnheard(steps, fund, i, j, p, q);
    ReadAtBirth(steps, fund, q + 1, l, r);
  }

  /** A tick that is saved has read the entry of the step at which it began. */
  lemma ReadAtBirth(steps: seq<Step>, fund: string, n: nat, l: nat, r: nat)
    requires n < |steps| && SavesAt(steps, r, l, fund)
    requires Begins(Lines(steps[..n]), steps[n]) && steps[n].fund == fund && l == |Lines(steps[..n]).ticks|
    ensures r > n && Lines(steps[..r]).ticks[l].seen == LineOf(Lines(steps[..n]), fund)
  {
    LateTickIsSavedLater(steps, fund, n, l, r);
    LinesStep(steps, n);
    LinesGrow(steps, n + 1, r);
  }

  lemma LateTickIsSavedLater(steps: seq<Step>, fund: string, n: nat, l: nat, r: nat)
    requires n < |steps| && SavesAt(steps, r, l, fund) && l == |Lines(steps[..n]).ticks| && steps[n].Begin?
    ensures r > n
  {
    if r <= n {
      LinesGrow(steps, r, n);
    }
  }

  lemma {:induction false} FindLoss(steps: seq<Step>, fund: string, i: nat, n: nat, m: nat) returns (k: nat)
    requires n <= m <= |steps| && i in LineOf(Lines(steps[..n]), fund) && i !in LineOf(Lines(steps[..m]), fund)
    ensures LosesAt(steps, fund, k)
    decreases m
  {
    if i in LineOf(Lines(steps[..m - 1]), fund) {
      k := m - 1;
    } else {
      k := FindLoss(steps, fund, i, n, m - 1);
    }
  }

  lemma HazardLoses(steps: seq<Step>, fund: string) returns (n: nat)
    requires Hazard(steps, fund)
    ensures LosesAt(steps, fund, n)
  {
    var i: nat, p: nat, q: nat := HazardDrops(steps, fund);
    SaveAdds(steps, i, p, fund);
    n := FindLoss(steps, fund, i, p + 1, q + 1);
  }

  lemma HazardDrops(steps: seq<Step>, fund: string) returns (i: nat, p: nat, q: nat)
    requires Hazard(steps, fund)
    ensures p < q < |steps| && SavesAt(steps, p, i, fund) && i !in LineOf(Lines(steps[..q + 1]), fund)
  {
    if Overlap(steps, fund) {
      var j: nat;
      i, j, p, q :| Overlapping(steps, fund, i, j, p, q);
      OverlapIsUnheard(steps, fund, i, j, p, q);
    } else {
      var other, k: nat;
      other, i, k, p, q :| WritesBack(steps, fund, other, i, k, p, q);
      WriteBackDrops(steps, fund, other, i, k, p, q);
    }
  }

  /** The entry of a fund loses work if and only if there is a hazard. */
  lemma LosesIffHazard(steps: seq<Step>, fund: string)
    ensures (exists n: nat :: LosesAt(steps, fund, n)) <==> Hazard(steps, fund)
  {
    if Hazard(steps, fund) {
      var n := HazardLoses(steps, fund);
    } else {
      forall n: nat | n < |steps|
        ensures !LosesAt(steps, fund, n)
      {
        NoHazardIsClean(steps, n + 1, fund);
      }
    }
  }

  // ----- what the lock is good for

  /** A copy is written back over a save of another process only. */
  lemma WriteBackCrossesProcesses(steps: seq<Step>, fund: string, other: string, i: nat, k: nat, p: nat, q: nat)
    requires WritesBack(steps, fund, other, i, k, p, q)
    ensures Lines(steps[..p]).ticks[i].process != Lines(steps[..p]).ticks[k].process
  {
    LinesTidy(steps[..p]);
    LinesGrow(steps, p, q);
    assert i < k || k < i;
  }

  predicate OneProcess(steps: seq<Step>, process: nat) {
    forall n :: 0 <= n < |steps| && steps[n].Begin? ==> steps[n].process == process
  }

  lemma {:induction false} AllOfOneProcess(steps: seq<Step>, process: nat, n: nat)
    requires OneProcess(steps, process) && n <= |steps|
    ensures forall k :: 0 <= k < |Lines(steps[..n]).ticks| ==> Lines(steps[..n]).ticks[k].process == process
  {
    if n > 0 {
      AllOfOneProcess(steps, process, n - 1);
      LinesStep(steps, n - 1);
    }
  }

  /** Within one process a hazard is an overlap, and it is a tick that does not build on one saved before it. */
  lemma OneProcessHazards(steps: seq<Step>, process: nat, fund: string)
    requires OneProcess(steps, process)
    ensures Hazard(steps, fund) <==> Overlap(steps, fund)
    ensures SomeUnheard(steps, fund) <==> Overlap(steps, fund)
  {
    if WriteBack(steps, fund) {
      var other, i: nat, k: nat, p: nat, q: nat :| WritesBack(steps, fund, other, i, k, p, q);
      WriteBackCrossesProcesses(steps, fund, other, i, k, p, q);
      AllOfOneProcess(steps, process, p);
    }
    if SomeUnheard(steps, fund) {
      UnheardIsHazard(steps, fund);
    }
    if Overlap(steps, fund) {
      var i: nat, j: nat, p: nat, q: nat :| Overlapping(steps, fund, i, j, p, q);
      OverlapIsUnheard(steps, fund, i, j, p, q);
    }
  }

  // ----- ticks in sequence

  predicate Running<E>(s: System<E>, fund: string) {
    exists k :: 0 <= k < |s.ticks| && s.ticks[k].fund == fund && !s.ticks[k].phase.Closed?
  }

  /** The fund's own ticks come one after another, in whatever processes; those of other funds may interleave. */
  predicate InSequence(steps: seq<Step>, fund: string) {
    forall n :: 0 <= n < |steps| && steps[n].Begin? && steps[n].fund == fund ==> !Running(Lines(steps[..n]), fund)
  }

  /** The step at which a tick began. */
  lemma {:induction false} Birth(steps: seq<Step>, n: nat, k: nat) returns (b: nat)
    requires n <= |steps| && k < |Lines(steps[..n]).ticks|
    ensures b < n && |Lines(steps[..b]).ticks| == k && steps[b].Begin? && steps[b].fund == Lines(steps[..n]).ticks[k].fund
  {
    LinesStep(steps, n - 1);
    if k < |Lines(steps[..n - 1]).ticks| {
      LinesGrow(steps, n - 1, n);
      b := Birth(steps, n - 1, k);
    } else {
      b := n - 1;
    }
  }

  lemma SequenceHasNoOverlap(steps: seq<Step>, fund: string)
    requires InSequence(steps, fund)
    ensures !Overlap(steps, fund)
  {
    if Overlap(steps, fund) {
      var i: nat, j: nat, p: nat, q: nat :| Overlapping(steps, fund, i, j, p, q);
      OverlapIsUnheard(steps, fund, i, j, p, q);
      LinesGrow(steps, p, q);
      if i < j {
        BothRun(steps, p, i, j, fund);
      } else {
        BothRun(steps, p, j, i, fund);
      }
    }
  }

  lemma BothRun(steps: seq<Step>, p: nat, i: nat, j: nat, fund: string)
    requires p <= |steps| && i < j < |Lines(steps[..p]).ticks|
    requires var t := Lines(steps[..p]).ticks;
             t[i].fund == fund && t[j].fund == fund && !t[i].phase.Closed? && !t[j].phase.Closed?
    ensures !InSequence(steps, fund)
  {
    var b := Birth(steps, p, j);
    LinesGrow(steps, b, p);
    assert !Lines(steps[..b]).ticks[i].phase.Closed?;
    assert Running(Lines(steps[..b]), fund);
  }

  /** In a process that has the file to itself a copy is the file. */
  ghost predicate CopiesCurrent<E>(t: System<E>, process: nat) {
    && OneLock(t) && (forall k :: 0 <= k < |t.ticks| ==> t.ticks[k].process == process)
    && (forall k :: 0 <= k < |t.ticks| && t.ticks[k].phase.Reloaded? ==> t.ticks[k].phase.copy == t.file)
  }

  lemma StepCopiesCurrent<E>(t: System<E>, step: Step, process: nat, build: (nat, E) -> E, zero: E)
    requires CopiesCurrent(t, process) && (step.Begin? ==> step.process == process)
    ensures CopiesCurrent(Do(t, step, build, zero), process)
  {
    if Saves(t, step) {
      assert forall k :: 0 <= k < |t.ticks| && k != step.tick ==> !t.ticks[k].phase.Reloaded?;
    }
  }

  lemma {:induction false} OneProcessCopies<E>(s: System<E>, steps: seq<Step>, process: nat, build: (nat, E) -> E, zero: E)
    requires s.ticks == [] && OneProcess(steps, process)
    ensures CopiesCurrent(Run(s, steps, build, zero), process)
  {
    if steps != [] {
      var n := |steps| - 1;
      OneProcessCopies(s, steps[..n], process, build, zero);
      StepCopiesCurrent(Run(s, steps[..n], build, zero), steps[n], process, build, zero);
    }
  }

  // ----- two schedules

  lemma LinesMore(steps: seq<Step>, t: System<Line>, step: Step, u: System<Line>)
    requires Lines(steps) == t && Do(t, step, AddTick, {}) == u
    ensures Lines(steps + [step]) == u
  {
    assert (steps + [step])[..|steps|] == steps;
  }

  /** Process 0 ticks f, process 1 ticks g twice, one tick after the other. */
  function CrossingSteps(): seq<Step> {
    [Begin(0, "f"), Begin(1, "g"), Reload(0), Reload(1), Save(1), Save(0), Begin(1, "g"), Reload(2), Save(2)]
  }

  lemma CrossingFirst()
    ensures Lines(CrossingSteps()[..1]) == System(map[], [Tick(0, "f", {}, Open)], {})
    ensures Lines(CrossingSteps()[..4]) ==
            System(map[], [Tick(0, "f", {}, Reloaded(map[])), Tick(1, "g", {}, Reloaded(map[]))], {})
  {
    var c := CrossingSteps();
    var f, g := Tick(0, "f", {}, Open), Tick(1, "g", {}, Open);
    var f', g' := f.(phase := Reloaded(map[])), g.(phase := Reloaded(map[]));
    assert c[..0] == [] && c[..1] == c[..0] + [c[0]] && c[..2] == c[..1] + [c[1]] && c[..3] == c[..2] + [c[2]] && c[..4] == c[..3] + [c[3]];
    LinesMore(c[..0], NOBODY, c[0], System(map[], [f], {}));
    LinesMore(c[..1], System(map[], [f], {}), c[1], System(map[], [f, g], {}));
    LinesMore(c[..2], System(map[], [f, g], {}), c[2], System(map[], [f', g], {}));
    LinesMore(c[..3], System(map[], [f', g], {}), c[3], System(map[], [f', g'], {}));
  }

  lemma CrossingSaves()
    ensures Lines(CrossingSteps()[..5]) ==
            System(map["g" := {1}], [Tick(0, "f", {}, Reloaded(map[])), Tick(1, "g", {}, Closed)], {1})
    ensures Lines(CrossingSteps()[..6]) == System(map["f" := {0}], [Tick(0, "f", {}, Closed), Tick(1, "g", {}, Closed)], {0, 1})
  {
    CrossingFirst();
    var c := CrossingSteps();
    var f, f', g := Tick(0, "f", {}, Reloaded(map[])), Tick(0, "f", {}, Closed), Tick(1, "g", {}, Closed);
    var none: map<string, Line> := map[];
    assert c[..5] == c[..4] + [c[4]] && c[..6] == c[..5] + [c[5]];
    assert AddTick(1, {}) == {1} && AddTick(0, {}) == {0} && {1} + {0} == {0, 1};
    assert none["g" := {1}] == map["g" := {1}] && none["f" := {0}] == map["f" := {0}];
    LinesMore(c[..4], Lines(c[..4]), c[4], System(map["g" := {1}], [f, g], {1}));
    LinesMore(c[..5], Lines(c[..5]), c[5], System(map["f" := {0}], [f', g], {0, 1}));
  }

  lemma CrossingLast()
    ensures var t := Lines(CrossingSteps()[..8]);
            |t.ticks| == 3 && t.ticks[2] == Tick(1, "g", {}, Reloaded(map["f" := {0}]))
  {
    CrossingSaves();
    var c := CrossingSteps();
    var f, g, h := Tick(0, "f", {}, Closed), Tick(1, "g", {}, Closed), Tick(1, "g", {}, Open);
    var file := map["f" := {0}];
    assert c[..7] == c[..6] + [c[6]] && c[..8] == c[..7] + [c[7]];
    LinesMore(c[..6], Lines(c[..6]), c[6], System(file, [f, g, h], {0, 1}));
    LinesMore(c[..7], Lines(c[..7]), c[7], System(file, [f, g, h.(phase := Reloaded(file))], {0, 1}));
  }

  lemma CrossingInSequence()
    ensures InSequence(CrossingSteps(), "g")
  {
    var c := CrossingSteps();
    forall n | 0 <= n < |c| && c[n].Begin? && c[n].fund == "g"
      ensures !Running(Lines(c[..n]), "g")
    {
      if n == 1 {
        CrossingFirst();
      } else {
        assert n == 6;
        CrossingSaves();
      }
    }
  }

  /** The ticks of g do not overlap; tick 0, of f in another process, writes back a copy older than the save of tick 1; and
      tick 2 does not build on tick 1. */
  lemma CrossingHazard()
    ensures var c := CrossingSteps();
            && InSequence(c, "g") && !Overlap(c, "g")
            && WritesBack(c, "g", "f", 1, 0, 4, 5) && LosesAt(c, "g", 5) && Unheard(c, "g", 1, 2, 4, 8)
  {
    var c := CrossingSteps();
    CrossingFirst();
    CrossingSaves();
    CrossingLast();
    CrossingInSequence();
    SequenceHasNoOverlap(c, "g");
  }
}
