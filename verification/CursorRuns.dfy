/** The cursors under any schedule of ticks: when a fund's stored cursor can fall, and when something is emitted twice. */
module CursorRuns {
  import opened Text
  import opened CronCursor
  import opened CursorFile

  /** What the session tells each tick. */
  type Told = nat -> Payload

  function Advancing(told: Told): (nat, Cursor) -> Cursor {
    (k: nat, c: Cursor) => Advanced(told(k), c)
  }

  /** The schedule run on this file, with these payloads. */
  function Cursors(file: map<string, Cursor>, told: Told, steps: seq<Step>): System<Cursor> {
    Run(System(file, [], {}), steps, Advancing(told), START)
  }

  function CursorAt(file: map<string, Cursor>, told: Told, steps: seq<Step>, n: nat, fund: string): Cursor
    requires n <= |steps|
  {
    Entry(Cursors(file, told, steps[..n]).file, fund, START)
  }

  /** d is lower than c in one of its parts. */
  predicate Lower(d: Cursor, c: Cursor) {
    d.block < c.block || d.timestamp < c.timestamp
  }

  // ----- an entry is the highest point of what it builds on

  predicate ReachesBlock(p: Payload, b: int) {
    exists e :: e in p.events && e.block >= b
  }

  predicate ReachesTime(p: Payload, t: real) {
    exists m :: m in p.messages && m.sentAt.Some? && m.sentAt.value >= t
  }

  ghost predicate SomeReachesBlock(told: Told, line: Line, b: int) {
    exists k :: k in line && ReachesBlock(told(k), b)
  }

  ghost predicate SomeReachesTime(told: Told, line: Line, t: real) {
    exists k :: k in line && ReachesTime(told(k), t)
  }

  /** The cursor is the highest of the first one and of what the ticks of the line were told. */
  ghost predicate Joined(told: Told, first: Cursor, c: Cursor, line: Line) {
    && (forall b :: c.block >= b <==> first.block >= b || SomeReachesBlock(told, line, b))
    && (forall t :: c.timestamp >= t <==> first.timestamp >= t || SomeReachesTime(told, line, t))
  }

  ghost function JoinedFrom(told: Told, first: Cursor): (Cursor, Line) -> bool {
    (c: Cursor, line: Line) => Joined(told, first, c, line)
  }

  lemma AdvancedReaches(p: Payload, c: Cursor)
    ensures forall b :: Advanced(p, c).block >= b <==> c.block >= b || ReachesBlock(p, b)
    ensures forall t :: Advanced(p, c).timestamp >= t <==> c.timestamp >= t || ReachesTime(p, t)
  {
    forall b
      ensures Advanced(p, c).block >= b <==> c.block >= b || ReachesBlock(p, b)
    {
      BlockReaches(p, c, b);
    }
    forall t
      ensures Advanced(p, c).timestamp >= t <==> c.timestamp >= t || ReachesTime(p, t)
    {
      TimeReaches(p, c, t);
    }
  }

  lemma BlockReaches(p: Payload, c: Cursor, b: int)
    ensures Advanced(p, c).block >= b <==> c.block >= b || ReachesBlock(p, b)
  {
    var es := SortEvents(p.events);
    var m := MaxBlock(es, c.block);
    if ReachesBlock(p, b) {
      var e :| e in p.events && e.block >= b;
      SortedHas(p.events, e);
      var i :| 0 <= i < |es| && es[i] == e;
    }
    if m >= b && c.block < b {
      var i :| 0 <= i < |es| && es[i].block == m;
      SortedHas(p.events, es[i]);
    }
  }

  lemma TimeReaches(p: Payload, c: Cursor, t: real)
    ensures Advanced(p, c).timestamp >= t <==> c.timestamp >= t || ReachesTime(p, t)
  {
    var ms := SortMessages(p.messages);
    var m := MaxTime(ms, c.timestamp);
    SortMessagesKeeps(p.messages);
    if ReachesTime(p, t) {
      var x :| x in p.messages && x.sentAt.Some? && x.sentAt.value >= t;
      var i :| 0 <= i < |ms| && ms[i] == x;
    }
    if m >= t && c.timestamp < t {
      var i :| 0 <= i < |ms| && ms[i].sentAt == Some(m);
      assert ms[i] in p.messages;
    }
  }

  lemma AdvanceJoins(told: Told, first: Cursor, k: nat, c: Cursor, line: Line)
    requires Joined(told, first, c, line)
    ensures Joined(told, first, Advanced(told(k), c), line + {k})
  {
    AdvancedReaches(told(k), c);
    forall b
      ensures Advanced(told(k), c).block >= b <==> first.block >= b || SomeReachesBlock(told, line + {k}, b)
    {
      assert SomeReachesBlock(told, line + {k}, b) <==> SomeReachesBlock(told, line, b) || ReachesBlock(told(k), b);
    }
    forall t
      ensures Advanced(told(k), c).timestamp >= t <==> first.timestamp >= t || SomeReachesTime(told, line + {k}, t)
    {
      assert SomeReachesTime(told, line + {k}, t) <==> SomeReachesTime(told, line, t) || ReachesTime(told(k), t);
    }
  }

  lemma AllJoined(file: map<string, Cursor>, told: Told, steps: seq<Step>, fund: string)
    ensures Related(Cursors(file, told, steps), Lines(steps), fund, START, {}, JoinedFrom(told, Entry(file, fund, START)))
  {
    var first := Entry(file, fund, START);
    forall k: nat, c, line | JoinedFrom(told, first)(c, line)
      ensures JoinedFrom(told, first)(Advancing(told)(k, c), AddTick(k, line))
    {
      AdvanceJoins(told, first, k, c, line);
    }
    RunRelates(System(file, [], {}), NOBODY, steps, fund, Advancing(told), START, AddTick, {}, JoinedFrom(told, first));
  }

  lemma CursorJoined(file: map<string, Cursor>, told: Told, steps: seq<Step>, n: nat, fund: string)
    requires n <= |steps|
    ensures Joined(told, Entry(file, fund, START), CursorAt(file, told, steps, n, fund), LineOf(Lines(steps[..n]), fund))
  {
    AllJoined(file, told, steps[..n], fund);
  }

  /** What tick k read. */
  function SeenBy(file: map<string, Cursor>, told: Told, steps: seq<Step>, n: nat, k: nat): Cursor
    requires n <= |steps|
  {
    var ticks := Cursors(file, told, steps[..n]).ticks;
    if k < |ticks| then ticks[k].seen else START
  }

  lemma SeenJoined(file: map<string, Cursor>, told: Told, steps: seq<Step>, n: nat, k: nat, fund: string)
    requires SavesAt(steps, n, k, fund)
    ensures Joined(told, Entry(file, fund, START), SeenBy(file, told, steps, n, k), Lines(steps[..n]).ticks[k].seen)
  {
    AllJoined(file, told, steps[..n], fund);
  }

  lemma JoinedIs(told: Told, first: Cursor, c: Cursor, line: Line, b: int, t: real)
    requires Joined(told, first, c, line)
    ensures c.block >= b <==> first.block >= b || SomeReachesBlock(told, line, b)
    ensures c.timestamp >= t <==> first.timestamp >= t || SomeReachesTime(told, line, t)
  {
    var byBlock, byTime := SomeReachesBlock(told, line, b), SomeReachesTime(told, line, t);
  }

  /** Building on more never lies lower. */
  lemma JoinedMonotone(told: Told, first: Cursor, c: Cursor, line: Line, d: Cursor, more: Line)
    requires Joined(told, first, c, line) && Joined(told, first, d, more) && line <= more
    ensures !Lower(d, c)
  {
    JoinedIs(told, first, c, line, c.block, c.timestamp);
    JoinedIs(told, first, d, more, c.block, c.timestamp);
  }

  // ----- payloads that show what a schedule can do

  const NOTHING := Payload([], [])

  /** An event just above the fund's first cursor. */
  function News(file: map<string, Cursor>, fund: string): ChainEvent {
    ChainEvent("ProposalCreated", Entry(file, fund, START).block + 1, "")
  }

  /** These ticks are told the news, the others nothing. */
  function OnlyTold(ticks: set<nat>, e: ChainEvent): Told {
    (k: nat) => if k in ticks then Payload([e], []) else NOTHING
  }

  lemma NewsReaches(ticks: set<nat>, e: ChainEvent, line: Line)
    ensures SomeReachesBlock(OnlyTold(ticks, e), line, e.block) <==> exists k :: k in line && k in ticks
  {
    var told := OnlyTold(ticks, e);
    assert e in Payload([e], []).events;
    forall k: nat
      ensures ReachesBlock(told(k), e.block) <==> k in ticks
    {}
  }

  // ----- when the stored cursor can fall

  /** Step n lowers the fund's stored cursor. */
  predicate FallsAt(file: map<string, Cursor>, told: Told, steps: seq<Step>, fund: string, n: nat) {
    n < |steps| && Lower(CursorAt(file, told, steps, n + 1, fund), CursorAt(file, told, steps, n, fund))
  }

  lemma FallLoses(file: map<string, Cursor>, told: Told, steps: seq<Step>, fund: string, n: nat)
    requires FallsAt(file, told, steps, fund, n)
    ensures LosesAt(steps, fund, n)
  {
    var first := Entry(file, fund, START);
    CursorJoined(file, told, steps, n, fund);
    CursorJoined(file, told, steps, n + 1, fund);
    if !LosesAt(steps, fund, n) {
      JoinedMonotone(told, first, CursorAt(file, told, steps, n, fund), LineOf(Lines(steps[..n]), fund),
                     CursorAt(file, told, steps, n + 1, fund), LineOf(Lines(steps[..n + 1]), fund));
    }
  }

  lemma LossCanFall(file: map<string, Cursor>, steps: seq<Step>, fund: string, n: nat) returns (told: Told)
    requires LosesAt(steps, fund, n)
    ensures FallsAt(file, told, steps, fund, n)
  {
    var e := News(file, fund);
    var i :| i in LineOf(Lines(steps[..n]), fund) && i !in LineOf(Lines(steps[..n + 1]), fund);
    told := OnlyTold({i}, e);
    CursorJoined(file, told, steps, n, fund);
    CursorJoined(file, told, steps, n + 1, fund);
    NewsReaches({i}, e, LineOf(Lines(steps[..n]), fund));
    NewsReaches({i}, e, LineOf(Lines(steps[..n + 1]), fund));
  }

  /** A step of a schedule lowers the fund's stored cursor, with some payloads, if and only if it takes a tick out of those
      that the fund's entry builds on. */
  lemma FallsAtIff(file: map<string, Cursor>, steps: seq<Step>, fund: string, n: nat)
    ensures (exists told :: FallsAt(file, told, steps, fund, n)) <==> LosesAt(steps, fund, n)
  {
    if LosesAt(steps, fund, n) {
      var told := LossCanFall(file, steps, fund, n);
    }
    forall told | FallsAt(file, told, steps, fund, n)
      ensures LosesAt(steps, fund, n)
    {
      FallLoses(file, told, steps, fund, n);
    }
  }

  /** A schedule lowers the fund's stored cursor, with some payloads, if and only if two of the fund's saved ticks overlap or
      another fund's tick writes back a copy of the file that is older than a save of this fund's entry. */
  lemma FallsIffHazard(file: map<string, Cursor>, steps: seq<Step>, fund: string)
    ensures (exists told, n: nat :: FallsAt(file, told, steps, fund, n)) <==> Hazard(steps, fund)
  {
    LosesIffHazard(steps, fund);
    if Hazard(steps, fund) {
      var n: nat :| LosesAt(steps, fund, n);
      var told := LossCanFall(file, steps, fund, n);
    }
    forall told, n: nat | FallsAt(file, told, steps, fund, n)
      ensures LosesAt(steps, fund, n)
    {
      FallLoses(file, told, steps, fund, n);
    }
  }

  // ----- when something can be emitted twice

  /** What tick k, saved at step n, emits. */
  function EmittedAt(file: map<string, Cursor>, told: Told, steps: seq<Step>, n: nat, k: nat): seq<Emitted>
    requires n <= |steps|
  {
    Emission(told(k), SeenBy(file, told, steps, n, k))
  }

  /** Ticks i and j of the fund both emit x. */
  ghost predicate BothEmit(file: map<string, Cursor>, told: Told, steps: seq<Step>, fund: string, i: nat, j: nat, p: nat, q: nat, x: Emitted) {
    && p < q && SavesAt(steps, p, i, fund) && SavesAt(steps, q, j, fund)
    && x in EmittedAt(file, told, steps, p, i) && x in EmittedAt(file, told, steps, q, j)
  }

  ghost predicate Repeats(file: map<string, Cursor>, told: Told, steps: seq<Step>, fund: string) {
    exists i: nat, j: nat, p: nat, q: nat, x :: BothEmit(file, told, steps, fund, i, j, p, q, x)
  }

  /** Nothing that a tick of the line was told lies above the cursor. */
  lemma NotAboveLine(told: Told, first: Cursor, c: Cursor, line: Line, k: nat, x: Emitted)
    requires Joined(told, first, c, line) && k in line && Wanted(x, told(k))
    ensures !Above(x, c)
  {
    match x {
      case Chain(e) =>
        assert ReachesBlock(told(k), e.block);
        assert SomeReachesBlock(told, line, e.block);
      case Xmtp(m) =>
        assert ReachesTime(told(k), m.sentAt.value);
        assert SomeReachesTime(told, line, m.sentAt.value);
    }
  }

  lemma RepeatIsUnheard(file: map<string, Cursor>, told: Told, steps: seq<Step>, fund: string, i: nat, j: nat, p: nat, q: nat, x: Emitted)
    requires BothEmit(file, told, steps, fund, i, j, p, q, x)
    ensures Unheard(steps, fund, i, j, p, q)
  {
    TickEmits(told(i), SeenBy(file, told, steps, p, i), x);
    TickEmits(told(j), SeenBy(file, told, steps, q, j), x);
    SeenJoined(file, told, steps, q, j, fund);
    if i in Lines(steps[..q]).ticks[j].seen {
      NotAboveLine(told, Entry(file, fund, START), SeenBy(file, told, steps, q, j), Lines(steps[..q]).ticks[j].seen, i, x);
    }
  }

  /** A tick that builds on nobody who was told the news emits it when told. */
  lemma NewsEmitted(file: map<string, Cursor>, ticks: set<nat>, steps: seq<Step>, fund: string, k: nat, n: nat)
    requires SavesAt(steps, n, k, fund) && k in ticks && forall i :: i in Lines(steps[..n]).ticks[k].seen ==> i !in ticks
    ensures Chain(News(file, fund)) in EmittedAt(file, OnlyTold(ticks, News(file, fund)), steps, n, k)
  {
    var e := News(file, fund);
    var told := OnlyTold(ticks, e);
    SeenJoined(file, told, steps, n, k, fund);
    NewsReaches(ticks, e, Lines(steps[..n]).ticks[k].seen);
    TickEmits(told(k), SeenBy(file, told, steps, n, k), Chain(e));
    assert e in told(k).events;
  }

  lemma UnheardCanRepeat(file: map<string, Cursor>, steps: seq<Step>, fund: string, i: nat, j: nat, p: nat, q: nat) returns (told: Told)
    requires Unheard(steps, fund, i, j, p, q)
    ensures BothEmit(file, told, steps, fund, i, j, p, q, Chain(News(file, fund)))
  {
    told := OnlyTold({i, j}, News(file, fund));
    ReadersAreUnsaved(steps, fund, i, j, p, q);
    NewsEmitted(file, {i, j}, steps, fund, i, p);
    NewsEmitted(file, {i, j}, steps, fund, j, q);
  }

  /** What a tick read builds on ticks that were saved before it, so on no tick saved at the same step or later. */
  lemma ReadersAreUnsaved(steps: seq<Step>, fund: string, i: nat, j: nat, p: nat, q: nat)
    requires p < q && SavesAt(steps, p, i, fund) && SavesAt(steps, q, j, fund)
    ensures i !in Lines(steps[..p]).ticks[i].seen && j !in Lines(steps[..p]).ticks[i].seen && j !in Lines(steps[..q]).ticks[j].seen
  {
    LinesTidy(steps[..p]);
    LinesTidy(steps[..q]);
    LinesGrow(steps, p, q);
    assert AllKnown(Lines(steps[..p]), fund) && AllKnown(Lines(steps[..q]), fund);
  }

  /** A schedule emits something twice for a fund, with some payloads, if and only if one of the fund's ticks is saved after
      another and does not build on it. */
  lemma RepeatsIffUnheard(file: map<string, Cursor>, steps: seq<Step>, fund: string)
    ensures (exists told :: Repeats(file, told, steps, fund)) <==> SomeUnheard(steps, fund)
  {
    if SomeUnheard(steps, fund) {
      var i: nat, j: nat, p: nat, q: nat :| Unheard(steps, fund, i, j, p, q);
      var told := UnheardCanRepeat(file, steps, fund, i, j, p, q);
      assert Repeats(file, told, steps, fund);
    }
    forall told | Repeats(file, told, steps, fund)
      ensures SomeUnheard(steps, fund)
    {
      var i: nat, j: nat, p: nat, q: nat, x :| BothEmit(file, told, steps, fund, i, j, p, q, x);
      RepeatIsUnheard(file, told, steps, fund, i, j, p, q, x);
    }
  }

  /** Of the two failures, a schedule allows one if and only if it has a hazard. */
  lemma TroubleIffHazard(file: map<string, Cursor>, steps: seq<Step>, fund: string)
    ensures (exists told :: Repeats(file, told, steps, fund)) || (exists told, n: nat :: FallsAt(file, told, steps, fund, n))
            <==> Hazard(steps, fund)
  {
    FallsIffHazard(file, steps, fund);
    RepeatsIffUnheard(file, steps, fund);
    if SomeUnheard(steps, fund) {
      UnheardIsHazard(steps, fund);
    }
  }

  // ----- without a hazard

  lemma {:induction false} CursorNeverFalls(file: map<string, Cursor>, told: Told, steps: seq<Step>, fund: string, k: nat, m: nat)
    requires !Hazard(steps, fund) && k <= m <= |steps|
    ensures !Lower(CursorAt(file, told, steps, m, fund), CursorAt(file, told, steps, k, fund))
    decreases m
  {
    if k < m {
      CursorNeverFalls(file, told, steps, fund, k, m - 1);
      if FallsAt(file, told, steps, fund, m - 1) {
        FallLoses(file, told, steps, fund, m - 1);
        LosesIffHazard(steps, fund);
      }
    }
  }

  /** Nothing emitted for the fund lies above its cursor from then on. */
  lemma EmittedStaysBelow(file: map<string, Cursor>, told: Told, steps: seq<Step>, fund: string, i: nat, p: nat, m: nat, x: Emitted)
    requires !Hazard(steps, fund) && SavesAt(steps, p, i, fund) && p < m <= |steps| && x in EmittedAt(file, told, steps, p, i)
    ensures !Above(x, CursorAt(file, told, steps, m, fund))
  {
    TickEmits(told(i), SeenBy(file, told, steps, p, i), x);
    SaveAdds(steps, i, p, fund);
    CursorJoined(file, told, steps, p + 1, fund);
    NotAboveLine(told, Entry(file, fund, START), CursorAt(file, told, steps, p + 1, fund), LineOf(Lines(steps[..p + 1]), fund), i, x);
    CursorNeverFalls(file, told, steps, fund, p + 1, m);
  }

  /** For one fund's ticks in sequence, in whatever processes, interleaved in any way with the ticks of other funds none of
      which writes back an older copy, and whatever the payloads: no event or message is emitted by two of them, everything
      emitted lies at or below the stored cursor from then on, the cursor never falls, and (with TickEmits) each
      interesting one above the cursor is emitted by the tick that first meets it. */
  lemma TicksInSequence(file: map<string, Cursor>, told: Told, steps: seq<Step>, fund: string, k: nat, m: nat)
    requires InSequence(steps, fund) && !WriteBack(steps, fund) && k <= m <= |steps|
    ensures !Repeats(file, told, steps, fund)
    ensures forall i: nat, p: nat, x :: p < m && SavesAt(steps, p, i, fund) && x in EmittedAt(file, told, steps, p, i)
              ==> !Above(x, CursorAt(file, told, steps, m, fund))
    ensures !Lower(CursorAt(file, told, steps, m, fund), CursorAt(file, told, steps, k, fund))
  {
    SequenceHasNoOverlap(steps, fund);
    TroubleIffHazard(file, steps, fund);
    CursorNeverFalls(file, told, steps, fund, k, m);
    forall i: nat, p: nat, x | p < m && SavesAt(steps, p, i, fund) && x in EmittedAt(file, told, steps, p, i)
      ensures !Above(x, CursorAt(file, told, steps, m, fund))
    {
      EmittedStaysBelow(file, told, steps, fund, i, p, m, x);
    }
  }

  // ----- within one process

  /** Within one process both failures come down to two saved ticks of the fund that overlap. */
  lemma RepeatsIffOverlap(file: map<string, Cursor>, steps: seq<Step>, process: nat, fund: string)
    requires OneProcess(steps, process)
    ensures (exists told :: Repeats(file, told, steps, fund)) <==> Overlap(steps, fund)
  {
    RepeatsIffUnheard(file, steps, fund);
    OneProcessHazards(steps, process, fund);
  }

  lemma FallsIffOverlap(file: map<string, Cursor>, steps: seq<Step>, process: nat, fund: string)
    requires OneProcess(steps, process)
    ensures (exists told, n: nat :: FallsAt(file, told, steps, fund, n)) <==> Overlap(steps, fund)
  {
    FallsIffHazard(file, steps, fund);
    OneProcessHazards(steps, process, fund);
  }

  lemma SequenceInOneProcess(file: map<string, Cursor>, told: Told, steps: seq<Step>, process: nat, fund: string, k: nat, m: nat)
    requires OneProcess(steps, process) && InSequence(steps, fund) && k <= m <= |steps|
    ensures !Repeats(file, told, steps, fund)
    ensures !Lower(CursorAt(file, told, steps, m, fund), CursorAt(file, told, steps, k, fund))
  {
    OneProcessHazards(steps, process, fund);
    SequenceHasNoOverlap(steps, fund);
    TicksInSequence(file, told, steps, fund, k, m);
  }

  /** And a step that saves no tick of the fund leaves the fund's cursor alone. */
  lemma OtherFundsKept(file: map<string, Cursor>, told: Told, steps: seq<Step>, process: nat, n: nat, fund: string)
    requires OneProcess(steps, process) && n < |steps| && forall k: nat :: !SavesAt(steps, n, k, fund)
    ensures CursorAt(file, told, steps, n + 1, fund) == CursorAt(file, told, steps, n, fund)
  {
    var s := System(file, [], {});
    RunStep(s, steps, n, Advancing(told), START);
    OneProcessCopies(s, steps[..n], process, Advancing(told), START);
    AllJoined(file, told, steps[..n], fund);
    var t := Cursors(file, told, steps[..n]);
    AlikeSteps(t, Lines(steps[..n]), steps[n]);
    if Saves(t, steps[n]) {
      assert !SavesAt(steps, n, steps[n].tick, fund);
    }
  }

  /** After two overlapping ticks the fund's next tick, although it may overlap none, can emit again what the first did. */
  lemma FallRepeats(file: map<string, Cursor>, steps: seq<Step>, fund: string, i: nat, j: nat, p: nat, q: nat, l: nat, r: nat)
    requires Overlapping(steps, fund, i, j, p, q) && q + 1 < |steps| && SavesAt(steps, r, l, fund)
    requires Begins(Lines(steps[..q + 1]), steps[q + 1]) && steps[q + 1].fund == fund && l == |Lines(steps[..q + 1]).ticks|
    ensures exists told, x :: BothEmit(file, told, steps, fund, i, l, p, r, x)
  {
    NextIsUnheard(steps, fund, i, j, p, q, l, r);
    var told := UnheardCanRepeat(file, steps, fund, i, l, p, r);
  }

  // ----- across processes

  lemma SameLineSameCursor(told: Told, first: Cursor, c: Cursor, line: Line, d: Cursor)
    requires Joined(told, first, c, line) && Joined(told, first, d, line)
    ensures c == d
  {
    JoinedMonotone(told, first, c, line, d, line);
    JoinedMonotone(told, first, d, line, c, line);
  }

  lemma NewsTells(file: map<string, Cursor>, steps: seq<Step>, fund: string, i: nat, n: nat)
    requires n <= |steps|
    ensures var first := Entry(file, fund, START).block;
            CursorAt(file, OnlyTold({i}, News(file, fund)), steps, n, fund).block >= first + 1
            <==> i in LineOf(Lines(steps[..n]), fund)
  {
    var e := News(file, fund);
    CursorJoined(file, OnlyTold({i}, e), steps, n, fund);
    NewsReaches({i}, e, LineOf(Lines(steps[..n]), fund));
    var reached := SomeReachesBlock(OnlyTold({i}, e), LineOf(Lines(steps[..n]), fund), e.block);
  }

  /** A step leaves the fund's cursor alone whatever the payloads if and only if the fund's entry builds on the same ticks
      after it. */
  lemma CursorKeptIff(file: map<string, Cursor>, steps: seq<Step>, n: nat, fund: string)
    requires n < |steps|
    ensures (forall told :: CursorAt(file, told, steps, n + 1, fund) == CursorAt(file, told, steps, n, fund))
            <==> LineOf(Lines(steps[..n + 1]), fund) == LineOf(Lines(steps[..n]), fund)
  {
    var before, after := LineOf(Lines(steps[..n]), fund), LineOf(Lines(steps[..n + 1]), fund);
    if before == after {
      forall told
        ensures CursorAt(file, told, steps, n + 1, fund) == CursorAt(file, told, steps, n, fund)
      {
        CursorJoined(file, told, steps, n, fund);
        CursorJoined(file, told, steps, n + 1, fund);
        SameLineSameCursor(told, Entry(file, fund, START), CursorAt(file, told, steps, n, fund), before,
                           CursorAt(file, told, steps, n + 1, fund));
      }
    } else {
      var i :| i in before + after && !(i in before && i in after);
      NewsTells(file, steps, fund, i, n);
      NewsTells(file, steps, fund, i, n + 1);
      var told := OnlyTold({i}, News(file, fund));
      assert CursorAt(file, told, steps, n + 1, fund) != CursorAt(file, told, steps, n, fund);
    }
  }

  /** Two processes and two funds: the ticks of g come one after the other, and yet a save of f takes g's cursor back to where
      it was, and g's next tick emits an event again. */
  lemma CrossingRepeats(file: map<string, Cursor>) returns (told: Told)
    ensures InSequence(CrossingSteps(), "g") && !Overlap(CrossingSteps(), "g")
    ensures CursorAt(file, told, CrossingSteps(), 5, "g").block > CursorAt(file, told, CrossingSteps(), 6, "g").block
    ensures CursorAt(file, told, CrossingSteps(), 6, "g").block == Entry(file, "g", START).block
    ensures BothEmit(file, told, CrossingSteps(), "g", 1, 2, 4, 8, Chain(News(file, "g")))
  {
    var c, e := CrossingSteps(), News(file, "g");
    CrossingHazard();
    CrossingSaves();
    told := OnlyTold({1, 2}, e);
    ReadersAreUnsaved(c, "g", 1, 2, 4, 8);
    NewsEmitted(file, {1, 2}, c, "g", 1, 4);
    NewsEmitted(file, {1, 2}, c, "g", 2, 8);
    CursorJoined(file, told, c, 5, "g");
    CursorJoined(file, told, c, 6, "g");
    NewsReaches({1, 2}, e, {1});
    NewsReaches({1, 2}, e, {});
    JoinedIs(told, Entry(file, "g", START), CursorAt(file, told, c, 5, "g"), {1}, e.block, 0.0);
    NobodyAdvances(told, Entry(file, "g", START), CursorAt(file, told, c, 6, "g"));
  }

  lemma NobodyAdvances(told: Told, first: Cursor, c: Cursor)
    requires Joined(told, first, c, {})
    ensures c == first
  {
    assert Joined(told, first, first, {});
    SameLineSameCursor(told, first, c, {}, first);
  }
}
