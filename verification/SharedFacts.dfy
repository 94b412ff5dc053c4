/** What is exact of moves is exact of the shared file: when the quotas, the receipts and a reservation hold of it under any
    interleaving of processes. */
module SharedFacts {
  import opened Text
  import opened Topics
  import opened FundModel
  import opened Protocol
  import opened ChainRace
  import opened Moves
  import opened Concurrent
  import Coordination
  import Receipts
  import Reservation
  import Store

  /** The step replaces the file by an update. */
  predicate Updates(t: FundSystem, step: FundStep) {
    step.Replace? && Store.Moved(t, step).Some? && t.procs[step.i].job.Update? && t.file.Whole?
  }

  /** If the step replaces the file by an update, that move, on the state it replaces, is one of those. */
  ghost predicate EachMove(t: FundSystem, step: FundStep, those: (FundState, Move) -> bool) {
    Updates(t, step) ==> forall m: Move :: Performs(t.procs[step.i].job.mutate, m) ==> those(t.file.stored.payload, m)
  }

  ghost predicate OfFile(law: Law, t: FundSystem) {
    t.file.Whole? ==> law.holds(t.file.stored.payload)
  }

  /** A file that is not there yet will hold a fresh fund. */
  ghost predicate Founded(law: Law, t: FundSystem) {
    t.file.Missing? ==> forall init :: Fresh(init) ==> law.holds(init)
  }

  lemma UpdateKeepsIff(law: Law, t: FundSystem, step: FundStep)
    requires Exact(law) && Store.Inv(t) && AllOfFund(t) && OfFile(law, t) && EachMove(t, step, law.fair)
    requires step.Replace? && Store.Moved(t, step).Some? && t.procs[step.i].job.Update?
    ensures OfFile(law, Store.Do(t, step)) <==> EachMove(t, step, law.spares)
  {
    var p := t.procs[step.i];
    assert Store.Current(t.file, p);
    var before, after := t.file.stored.payload, Store.Do(t, step).file.stored.payload;
    forall m: Move | Performs(p.job.mutate, m)
      ensures after == Made(before, m) && (law.holds(after) <==> law.spares(before, m))
    {
      assert p.job.mutate(before) == Mutation(before, m);
      assert law.fair(before, m);
    }
    assert OfFund(t.commits, p.job);
    var m :| Performs(p.job.mutate, m) && (m.Late? ==> TestedOn(t.commits, m));
  }

  lemma StepKeepsIff(law: Law, t: FundSystem, step: FundStep)
    requires Exact(law) && Store.Inv(t) && AllOfFund(t) && OfFile(law, t) && Founded(law, t) && EachMove(t, step, law.fair)
    ensures OfFile(law, Store.Do(t, step)) <==> EachMove(t, step, law.spares)
  {
    if step.Replace? && Store.Moved(t, step).Some? {
      if t.procs[step.i].job.Update? {
        UpdateKeepsIff(law, t, step);
      } else {
        assert Store.Current(t.file, t.procs[step.i]) && OfFund(t.commits, t.procs[step.i].job);
      }
    }
  }

  ghost predicate OfFileThroughout(law: Law, s: FundSystem, steps: seq<FundStep>, n: nat) {
    forall k :: n <= k <= |steps| ==> OfFile(law, Store.Run(s, steps[..k]))
  }

  /** From step n on every update is one of those, on the state it replaces. */
  ghost predicate EachMoveFrom(s: FundSystem, steps: seq<FundStep>, n: nat, those: (FundState, Move) -> bool) {
    forall k :: n <= k < |steps| ==> EachMove(Store.Run(s, steps[..k]), steps[k], those)
  }

  lemma FoundedStays(law: Law, t: FundSystem, step: FundStep)
    requires Store.Inv(t) && Founded(law, t)
    ensures Founded(law, Store.Do(t, step))
  {
    if step.Replace? && Store.Moved(t, step).Some? {
      Store.StepKeepsInv(t, step);
    }
  }

  lemma {:induction false} FoundedFrom(law: Law, s: FundSystem, steps: seq<FundStep>, n: nat, k: nat)
    requires Store.Initial(s) && FundSteps(s, steps) && n <= k <= |steps| && Founded(law, Store.Run(s, steps[..n]))
    ensures Founded(law, Store.Run(s, steps[..k]))
    decreases k
  {
    if n < k {
      FoundedFrom(law, s, steps, n, k - 1);
      FoundedStep(law, s, steps, k - 1, Store.Run(s, steps[..k - 1]));
    }
  }

  lemma FoundedStep(law: Law, s: FundSystem, steps: seq<FundStep>, k: nat, t: FundSystem)
    requires Store.Initial(s) && FundSteps(s, steps) && k < |steps| && t == Store.Run(s, steps[..k]) && Founded(law, t)
    ensures Founded(law, Store.Run(s, steps[..k + 1]))
  {
    StepAt(s, steps, k);
    FoundedStays(law, t, steps[k]);
  }

  lemma StepIff(law: Law, s: FundSystem, steps: seq<FundStep>, n: nat, k: nat, t: FundSystem)
    requires Exact(law) && Store.Initial(s) && FundSteps(s, steps) && n <= k < |steps| && t == Store.Run(s, steps[..k])
    requires Founded(law, Store.Run(s, steps[..n])) && EachMoveFrom(s, steps, n, law.fair) && OfFile(law, t)
    ensures OfFile(law, Store.Run(s, steps[..k + 1])) <==> EachMove(t, steps[k], law.spares)
  {
    StepAt(s, steps, k);
    FoundedFrom(law, s, steps, n, k);
    assert EachMove(Store.Run(s, steps[..k]), steps[k], law.fair);
    StepKeepsIff(law, t, steps[k]);
  }

  lemma {:induction false} SparedOfFile(law: Law, s: FundSystem, steps: seq<FundStep>, n: nat, k: nat)
    requires Exact(law) && Store.Initial(s) && FundSteps(s, steps) && n <= k <= |steps|
    requires Founded(law, Store.Run(s, steps[..n])) && OfFile(law, Store.Run(s, steps[..n]))
    requires EachMoveFrom(s, steps, n, law.fair) && EachMoveFrom(s, steps, n, law.spares)
    ensures OfFile(law, Store.Run(s, steps[..k]))
    decreases k
  {
    if n < k {
      SparedOfFile(law, s, steps, n, k - 1);
      assert EachMove(Store.Run(s, steps[..k - 1]), steps[k - 1], law.spares);
      StepIff(law, s, steps, n, k - 1, Store.Run(s, steps[..k - 1]));
    }
  }

  /** What is exact of one move is exact of the shared file: from step n on it holds of the file throughout if and only if
      every update, tested or not, spares it on the state it replaces. */
  lemma SharedIff(law: Law, s: FundSystem, steps: seq<FundStep>, n: nat)
    requires Exact(law) && Store.Initial(s) && FundSteps(s, steps) && n <= |steps|
    requires Founded(law, Store.Run(s, steps[..n])) && OfFile(law, Store.Run(s, steps[..n])) && EachMoveFrom(s, steps, n, law.fair)
    ensures OfFileThroughout(law, s, steps, n) <==> EachMoveFrom(s, steps, n, law.spares)
  {
    if EachMoveFrom(s, steps, n, law.spares) {
      forall k | n <= k <= |steps|
        ensures OfFile(law, Store.Run(s, steps[..k]))
      {
        SparedOfFile(law, s, steps, n, k);
      }
    }
    if OfFileThroughout(law, s, steps, n) {
      forall k | n <= k < |steps|
        ensures EachMove(Store.Run(s, steps[..k]), steps[k], law.spares)
      {
        assert OfFile(law, Store.Run(s, steps[..k])) && OfFile(law, Store.Run(s, steps[..k + 1]));
        StepIff(law, s, steps, n, k, Store.Run(s, steps[..k]));
      }
    }
  }

  // ----- the quotas

  ghost predicate QuotasOf(t: FundSystem) {
    t.file.Whole? ==> Coordination.Inv(t.file.stored.payload)
  }

  /** If the step replaces the file by an untested move, that move is harmless on the state it replaces. */
  ghost predicate ReplacesHarmlessly(t: FundSystem, step: FundStep) {
    Updates(t, step) ==>
      forall m: Move :: m.Late? && Performs(t.procs[step.i].job.mutate, m) ==> Harmless(t.file.stored.payload, m.id, m.state)
  }

  lemma QuotaMoves(t: FundSystem, step: FundStep)
    ensures EachMove(t, step, QuotaLaw().fair)
    ensures EachMove(t, step, QuotaLaw().spares) <==> ReplacesHarmlessly(t, step)
  {}

  /** The shared file keeps the quotas throughout if and only if every untested move is harmless on the state it
      replaces: its proposal is still open there, or it is a veto, or there is a slot for it. */
  lemma SharedQuotasIff(s: FundSystem, steps: seq<FundStep>)
    requires Store.Initial(s) && FundSteps(s, steps)
    ensures (forall k :: 0 <= k <= |steps| ==> QuotasOf(Store.Run(s, steps[..k])))
            <==> (forall k :: 0 <= k < |steps| ==> ReplacesHarmlessly(Store.Run(s, steps[..k]), steps[k]))
  {
    var law := QuotaLaw();
    QuotaLawIsExact();
    FreshFunds(law);
    forall k | 0 <= k < |steps|
      ensures EachMove(Store.Run(s, steps[..k]), steps[k], law.fair)
      ensures EachMove(Store.Run(s, steps[..k]), steps[k], law.spares) <==> ReplacesHarmlessly(Store.Run(s, steps[..k]), steps[k])
    {
      QuotaMoves(Store.Run(s, steps[..k]), steps[k]);
    }
    SharedIff(law, s, steps, 0);
    assert forall k :: 0 <= k <= |steps| ==> (QuotasOf(Store.Run(s, steps[..k])) <==> OfFile(law, Store.Run(s, steps[..k])));
  }

  lemma FreshFunds(law: Law)
    requires law == QuotaLaw() || law == Receipts.BookLaw()
    ensures forall init :: Fresh(init) ==> law.holds(init)
  {
    forall init | Fresh(init)
      ensures law.holds(init)
    {
      Coordination.FreshInv(init);
      Receipts.FreshBooks(init);
    }
  }

  /** What that means for the file at the end. */
  lemma SharedQuotas(s: FundSystem, steps: seq<FundStep>)
    requires Store.Initial(s) && FundSteps(s, steps) && !Store.Run(s, steps).file.Missing?
    requires forall k :: 0 <= k < |steps| ==> ReplacesHarmlessly(Store.Run(s, steps[..k]), steps[k])
    ensures var f := Store.Run(s, steps).file;
            && f.Whole? && OpenCount(f.stored.payload.proposals) + |f.stored.payload.claims| <= 2
            && Coordination.Inv(f.stored.payload)
  {
    SharedFileIsRun(s, steps);
    SharedQuotasIff(s, steps);
    assert steps[..|steps|] == steps;
    assert QuotasOf(Store.Run(s, steps[..|steps|]));
  }

  // ----- the receipts

  ghost predicate BooksOf(t: FundSystem) {
    t.file.Whole? ==> Receipts.BooksOk(t.file.stored.payload)
  }

  /** If the step replaces the file by an untested move, that move names no proposal that has a receipt. */
  ghost predicate ReplacesUnbooked(t: FundSystem, step: FundStep) {
    EachMove(t, step, (s: FundState, m: Move) => Receipts.SparesBooks(s, m))
  }

  /** The receipts in the shared file name pairwise different, settled proposals throughout if and only if no untested move
      names a proposal that has a receipt in the state it replaces. */
  lemma SharedBooksIff(s: FundSystem, steps: seq<FundStep>)
    requires Store.Initial(s) && FundSteps(s, steps)
    ensures (forall k :: 0 <= k <= |steps| ==> BooksOf(Store.Run(s, steps[..k])))
            <==> (forall k :: 0 <= k < |steps| ==> ReplacesUnbooked(Store.Run(s, steps[..k]), steps[k]))
  {
    var law := Receipts.BookLaw();
    Receipts.BookLawIsExact();
    FreshFunds(law);
    forall k | 0 <= k < |steps|
      ensures EachMove(Store.Run(s, steps[..k]), steps[k], law.fair)
      ensures EachMove(Store.Run(s, steps[..k]), steps[k], law.spares) <==> ReplacesUnbooked(Store.Run(s, steps[..k]), steps[k])
    {}
    SharedIff(law, s, steps, 0);
    assert forall k :: 0 <= k <= |steps| ==> (BooksOf(Store.Run(s, steps[..k])) <==> OfFile(law, Store.Run(s, steps[..k])));
  }

  // ----- a reservation

  ghost predicate ReservedIn(t: FundSystem, key: string, topicKey: string, until: Time) {
    t.file.Whole? && Reservation.Reserved(t.file.stored.payload, key, topicKey, until)
  }

  /** A claim or draft request that is committed to a file in which the quotas hold reserves. */
  lemma CommitReserves(t: FundSystem, step: FundStep, agent: string, topic: string, a: Action, now: Time)
    requires Store.Inv(t) && Updates(t, step) && Coordination.Inv(t.file.stored.payload)
    requires a == ClaimTopic(agent, topic) || (a.RequestDraft? && a.agent == agent && a.topic == topic)
    requires Performs(t.procs[step.i].job.mutate, Act(Event(a, now)))
    ensures ReservedIn(Store.Do(t, step), Lower(agent), Normalize(topic), now + CLAIM_TTL)
  {
    UpdateMakes(t, step, Act(Event(a, now)));
    Reservation.ClaimReserves(t.file.stored.payload, agent, topic, a, now);
  }

  /** A committed update of a fund process is its move, and was not refused. */
  lemma UpdateMakes(t: FundSystem, step: FundStep, m: Move)
    requires Store.Inv(t) && Updates(t, step) && Performs(t.procs[step.i].job.mutate, m)
    ensures NameTrimmed(m) && Mutation(t.file.stored.payload, m).Some? && Store.Do(t, step).file.Whole?
    ensures Store.Do(t, step).file.stored.payload == Mutation(t.file.stored.payload, m).value
  {
    var p := t.procs[step.i];
    assert Store.Current(t.file, p);
    assert p.job.mutate(t.file.stored.payload) == Mutation(t.file.stored.payload, m);
  }

  /** Once a claim in the shared file reserves, and as long as no update ends it, it reserves throughout if and only if every
      update spares the holder on the state it replaces. */
  lemma SharedReservationIff(s: FundSystem, steps: seq<FundStep>, n: nat, key: string, topicKey: string, until: Time)
    requires Store.Initial(s) && FundSteps(s, steps) && n <= |steps| && ReservedIn(Store.Run(s, steps[..n]), key, topicKey, until)
    requires EachMoveFrom(s, steps, n, Reservation.ReservationLaw(key, topicKey, until).fair)
    ensures (forall k :: n <= k <= |steps| ==> ReservedIn(Store.Run(s, steps[..k]), key, topicKey, until))
            <==> EachMoveFrom(s, steps, n, Reservation.ReservationLaw(key, topicKey, until).spares)
  {
    var law := Reservation.ReservationLaw(key, topicKey, until);
    Reservation.ReservationLawIsExact(key, topicKey, until);
    SharedIff(law, s, steps, n);
    forall k | n <= k <= |steps|
      ensures OfFile(law, Store.Run(s, steps[..k])) <==> ReservedIn(Store.Run(s, steps[..k]), key, topicKey, until)
    {
      FileStays(s, steps, n, k);
    }
  }

  predicate Present(t: FundSystem) {
    t.file.Whole?
  }

  /** A file that is there stays. */
  lemma {:induction false} FileStays(s: FundSystem, steps: seq<FundStep>, n: nat, k: nat)
    requires Store.Initial(s) && FundSteps(s, steps) && n <= k <= |steps| && Present(Store.Run(s, steps[..n]))
    ensures Present(Store.Run(s, steps[..k]))
    decreases k
  {
    if n < k {
      FileStays(s, steps, n, k - 1);
      FileStaysStep(s, steps, k - 1, Store.Run(s, steps[..k - 1]));
    }
  }

  lemma FileStaysStep(s: FundSystem, steps: seq<FundStep>, k: nat, t: FundSystem)
    requires Store.Initial(s) && FundSteps(s, steps) && k < |steps| && t == Store.Run(s, steps[..k]) && Present(t)
    ensures Present(Store.Run(s, steps[..k + 1]))
  {
    StepAt(s, steps, k);
    WholeStays(t, steps[k]);
  }

  lemma WholeStays(t: FundSystem, step: FundStep)
    requires Store.Inv(t) && Present(t)
    ensures Present(Store.Do(t, step))
  {
    Store.StepKeepsInv(t, step);
  }
}
