/** The autonomous tick and its per-fund cursor (sherwood_monitor/cron_tick.py). */
module CronCursor {
  import opened Text

  datatype ChainEvent = ChainEvent(kind: string, block: int, body: string)

  /** A message; its timestamp is None when `sentAt` does not parse. */
  datatype Message = Message(kind: string, sentAt: Option<real>, body: string)

  datatype Payload = Payload(events: seq<ChainEvent>, messages: seq<Message>)

  datatype Cursor = Cursor(block: int, timestamp: real)

  datatype Emitted = Chain(event: ChainEvent) | Xmtp(message: Message)

  const START := Cursor(0, 0.0)

  predicate InterestingChain(e: ChainEvent) {
    e.kind in {"ProposalCreated", "ProposalSettled", "ProposalCancelled", "ProposalExecuted", "SandboxPayloadStored",
               "SandboxRun", "ReviewOpened", "ReviewResolved", "GuardianSlashed"}
  }

  predicate InterestingXmtp(m: Message) {
    m.kind in {"RISK_ALERT", "APPROVAL_REQUEST"}
  }

  // ----- sorting: stable insertion, as `sorted(..., key=...)`

  function InsertEvent(e: ChainEvent, s: seq<ChainEvent>): seq<ChainEvent> {
    if s == [] || e.block < s[0].block then [e] + s else [s[0]] + InsertEvent(e, s[1..])
  }

  function SortEvents(s: seq<ChainEvent>): seq<ChainEvent> {
    if s == [] then [] else InsertEvent(s[|s| - 1], SortEvents(s[..|s| - 1]))
  }

  function InsertMessage(m: Message, s: seq<Message>): seq<Message>
    requires m.sentAt.Some? && forall i :: 0 <= i < |s| ==> s[i].sentAt.Some?
    ensures forall i :: 0 <= i < |InsertMessage(m, s)| ==> InsertMessage(m, s)[i].sentAt.Some?
  {
    if s == [] || m.sentAt.value < s[0].sentAt.value then [m] + s else [s[0]] + InsertMessage(m, s[1..])
  }

  /** The messages whose timestamp parses, by timestamp. */
  function SortMessages(s: seq<Message>): (r: seq<Message>)
    ensures forall i :: 0 <= i < |r| ==> r[i].sentAt.Some?
  {
    if s == [] then []
    else if s[|s| - 1].sentAt.None? then SortMessages(s[..|s| - 1])
    else InsertMessage(s[|s| - 1], SortMessages(s[..|s| - 1]))
  }

  lemma {:induction false} InsertEventKeeps(e: ChainEvent, s: seq<ChainEvent>)
    ensures multiset(InsertEvent(e, s)) == multiset(s) + multiset{e}
  {
    if s != [] && e.block >= s[0].block {
      InsertEventKeeps(e, s[1..]);
      assert s == [s[0]] + s[1..];
    }
  }

  predicate InBlockOrder(s: seq<ChainEvent>) {
    forall i, j :: 0 <= i < j < |s| ==> s[i].block <= s[j].block
  }

  lemma InOrderCons(x: ChainEvent, t: seq<ChainEvent>)
    requires InBlockOrder(t) && forall j :: 0 <= j < |t| ==> x.block <= t[j].block
    ensures InBlockOrder([x] + t)
  {}

  lemma {:induction false} InsertEventOrders(e: ChainEvent, s: seq<ChainEvent>, low: int)
    requires InBlockOrder(s) && low <= e.block && forall j :: 0 <= j < |s| ==> low <= s[j].block
    ensures InBlockOrder(InsertEvent(e, s))
    ensures forall j :: 0 <= j < |InsertEvent(e, s)| ==> low <= InsertEvent(e, s)[j].block
  {
    if s != [] && e.block >= s[0].block {
      InsertEventOrders(e, s[1..], s[0].block);
      InOrderCons(s[0], InsertEvent(e, s[1..]));
    } else {
      InOrderCons(e, s);
    }
  }

  /** Sorting keeps the events and puts them in block order. */
  lemma {:induction false} SortEventsSorts(s: seq<ChainEvent>)
    ensures multiset(SortEvents(s)) == multiset(s)
    ensures InBlockOrder(SortEvents(s))
  {
    if s != [] {
      var t := SortEvents(s[..|s| - 1]);
      SortEventsSorts(s[..|s| - 1]);
      InsertEventKeeps(s[|s| - 1], t);
      InsertEventOrders(s[|s| - 1], t, if t == [] || s[|s| - 1].block < t[0].block then s[|s| - 1].block else t[0].block);
      assert s == s[..|s| - 1] + [s[|s| - 1]];
    }
  }

  lemma SortedHas(s: seq<ChainEvent>, e: ChainEvent)
    ensures e in SortEvents(s) <==> e in s
  {
    SortEventsSorts(s);
    assert e in s <==> e in multiset(s);
    assert e in SortEvents(s) <==> e in multiset(SortEvents(s));
  }

  lemma {:induction false} InsertMessageFacts(m: Message, s: seq<Message>)
    requires m.sentAt.Some? && forall i :: 0 <= i < |s| ==> s[i].sentAt.Some?
    ensures forall x :: x in InsertMessage(m, s) <==> x in s || x == m
  {
    if s != [] && m.sentAt.value >= s[0].sentAt.value {
      InsertMessageFacts(m, s[1..]);
      assert s == [s[0]] + s[1..];
    }
  }

  lemma {:induction false} SortMessagesKeeps(s: seq<Message>)
    ensures forall x :: x in SortMessages(s) <==> x in s && x.sentAt.Some?
  {
    if s != [] {
      SortMessagesKeeps(s[..|s| - 1]);
      assert s == s[..|s| - 1] + [s[|s| - 1]];
      if s[|s| - 1].sentAt.Some? {
        InsertMessageFacts(s[|s| - 1], SortMessages(s[..|s| - 1]));
      }
    }
  }

  // ----- what a tick does

  predicate NewEvent(e: ChainEvent, c: Cursor) {
    e.block > c.block && InterestingChain(e)
  }

  predicate NewMessage(m: Message, c: Cursor) {
    m.sentAt.Some? && m.sentAt.value > c.timestamp && InterestingXmtp(m)
  }

  function NewEvents(s: seq<ChainEvent>, c: Cursor): seq<Emitted> {
    if s == [] then []
    else
      var last := s[|s| - 1];
      NewEvents(s[..|s| - 1], c) + (if NewEvent(last, c) then [Chain(last)] else [])
  }

  function NewMessages(s: seq<Message>, c: Cursor): seq<Emitted> {
    if s == [] then []
    else
      var last := s[|s| - 1];
      NewMessages(s[..|s| - 1], c) + (if NewMessage(last, c) then [Xmtp(last)] else [])
  }

  function MaxBlock(s: seq<ChainEvent>, low: int): (m: int)
    ensures m >= low && forall i :: 0 <= i < |s| ==> s[i].block <= m
    ensures m == low || exists i :: 0 <= i < |s| && s[i].block == m
  {
    if s == [] then low
    else
      var m := MaxBlock(s[..|s| - 1], low);
      if s[|s| - 1].block > m then s[|s| - 1].block else m
  }

  function MaxTime(s: seq<Message>, low: real): (m: real)
    ensures m >= low && forall i :: 0 <= i < |s| && s[i].sentAt.Some? ==> s[i].sentAt.value <= m
    ensures m == low || exists i :: 0 <= i < |s| && s[i].sentAt == Some(m)
  {
    if s == [] then low
    else
      var m := MaxTime(s[..|s| - 1], low);
      var last := s[|s| - 1];
      if last.sentAt.Some? && last.sentAt.value > m then last.sentAt.value else m
  }

  function Emission(p: Payload, c: Cursor): seq<Emitted> {
    NewEvents(SortEvents(p.events), c) + NewMessages(SortMessages(p.messages), c)
  }

  function Advanced(p: Payload, c: Cursor): Cursor {
    Cursor(MaxBlock(SortEvents(p.events), c.block), MaxTime(SortMessages(p.messages), c.timestamp))
  }

  /** `_filter_interesting`. */
  method FilterInteresting(p: Payload, c: Cursor) returns (newEvents: seq<Emitted>, maxBlock: int, maxTs: real)
    ensures newEvents == Emission(p, c) && Cursor(maxBlock, maxTs) == Advanced(p, c)
  {
    newEvents, maxBlock, maxTs := [], c.block, c.timestamp;
    var events := SortEvents(p.events);
    for i := 0 to |events|
      invariant newEvents == NewEvents(events[..i], c) && maxBlock == MaxBlock(events[..i], c.block)
    {
      assert events[..i + 1][..i] == events[..i];
      var ev := events[i];
      if ev.block > c.block {
        if InterestingChain(ev) {
          newEvents := newEvents + [Chain(ev)];
        }
        if ev.block > maxBlock {
          maxBlock := ev.block;
        }
      }
    }
    assert events[..|events|] == events;
    ghost var chain := newEvents;
    var messages := SortMessages(p.messages);
    assert chain + [] == chain;
    for i := 0 to |messages|
      invariant newEvents == chain + NewMessages(messages[..i], c) && maxTs == MaxTime(messages[..i], c.timestamp)
    {
      assert messages[..i + 1][..i] == messages[..i];
      var msg := messages[i];
      if msg.sentAt.value > c.timestamp {
        if InterestingXmtp(msg) {
          newEvents := newEvents + [Xmtp(msg)];
        }
        if msg.sentAt.value > maxTs {
          maxTs := msg.sentAt.value;
        }
      }
    }
    assert messages[..|messages|] == messages;
  }

  lemma {:induction false} NewEventsAre(s: seq<ChainEvent>, c: Cursor)
    ensures forall x :: x in NewEvents(s, c) <==> x.Chain? && x.event in s && NewEvent(x.event, c)
  {
    if s != [] {
      NewEventsAre(s[..|s| - 1], c);
      assert s == s[..|s| - 1] + [s[|s| - 1]];
    }
  }

  lemma {:induction false} NewMessagesAre(s: seq<Message>, c: Cursor)
    ensures forall x :: x in NewMessages(s, c) <==> x.Xmtp? && x.message in s && NewMessage(x.message, c)
  {
    if s != [] {
      NewMessagesAre(s[..|s| - 1], c);
      assert s == s[..|s| - 1] + [s[|s| - 1]];
    }
  }

  /** x is above the cursor. */
  predicate Above(x: Emitted, c: Cursor) {
    match x
    case Chain(e) => e.block > c.block
    case Xmtp(m) => m.sentAt.Some? && m.sentAt.value > c.timestamp
  }

  predicate Wanted(x: Emitted, p: Payload) {
    match x
    case Chain(e) => e in p.events && InterestingChain(e)
    case Xmtp(m) => m in p.messages && m.sentAt.Some? && InterestingXmtp(m)
  }

  /** A tick emits exactly the interesting events and messages of its payload that lie above the cursor, whatever order
      they came in; the cursor then lies at or above everything in the payload, and never lower than before. */
  lemma TickEmits(p: Payload, c: Cursor, x: Emitted)
    ensures x in Emission(p, c) <==> Wanted(x, p) && Above(x, c)
    ensures Wanted(x, p) ==> !Above(x, Advanced(p, c))
    ensures Advanced(p, c).block >= c.block && Advanced(p, c).timestamp >= c.timestamp
  {
    var es, ms := SortEvents(p.events), SortMessages(p.messages);
    SortMessagesKeeps(p.messages);
    NewEventsAre(es, c);
    NewMessagesAre(ms, c);
    if x.Chain? {
      SortedHas(p.events, x.event);
    } else if x.message in ms {
      var i :| 0 <= i < |ms| && ms[i] == x.message;
    }
  }

  // ----- how often, in which order, and where the cursor goes

  lemma {:induction false} NewEventsCount(s: seq<ChainEvent>, c: Cursor, e: ChainEvent)
    ensures multiset(NewEvents(s, c))[Chain(e)] == if NewEvent(e, c) then multiset(s)[e] else 0
    ensures forall m: Message :: multiset(NewEvents(s, c))[Xmtp(m)] == 0
  {
    if s != [] {
      NewEventsCount(s[..|s| - 1], c, e);
      assert s == s[..|s| - 1] + [s[|s| - 1]];
    }
  }

  lemma {:induction false} NewMessagesCount(s: seq<Message>, c: Cursor, m: Message)
    ensures multiset(NewMessages(s, c))[Xmtp(m)] == if NewMessage(m, c) then multiset(s)[m] else 0
    ensures forall e: ChainEvent :: multiset(NewMessages(s, c))[Chain(e)] == 0
  {
    if s != [] {
      NewMessagesCount(s[..|s| - 1], c, m);
      assert s == s[..|s| - 1] + [s[|s| - 1]];
    }
  }

  lemma {:induction false} InsertMessageKeeps(m: Message, s: seq<Message>)
    requires m.sentAt.Some? && forall i :: 0 <= i < |s| ==> s[i].sentAt.Some?
    ensures multiset(InsertMessage(m, s)) == multiset(s) + multiset{m}
  {
    if s != [] && m.sentAt.value >= s[0].sentAt.value {
      InsertMessageKeeps(m, s[1..]);
      assert s == [s[0]] + s[1..];
    }
  }

  lemma {:induction false} SortMessagesCount(s: seq<Message>, m: Message)
    ensures multiset(SortMessages(s))[m] == if m.sentAt.Some? then multiset(s)[m] else 0
  {
    if s != [] {
      var front, last := s[..|s| - 1], s[|s| - 1];
      SortMessagesCount(front, m);
      assert s == front + [last];
      if last.sentAt.Some? {
        InsertMessageKeeps(last, SortMessages(front));
      }
    }
  }

  predicate InTimeOrder(s: seq<Message>) {
    && (forall i :: 0 <= i < |s| ==> s[i].sentAt.Some?)
    && (forall i, j :: 0 <= i < j < |s| ==> s[i].sentAt.value <= s[j].sentAt.value)
  }

  lemma InTimeCons(x: Message, t: seq<Message>)
    requires x.sentAt.Some? && InTimeOrder(t) && forall j :: 0 <= j < |t| ==> x.sentAt.value <= t[j].sentAt.value
    ensures InTimeOrder([x] + t)
  {}

  lemma {:induction false} InsertMessageOrders(m: Message, s: seq<Message>, low: real)
    requires InTimeOrder(s) && m.sentAt.Some? && low <= m.sentAt.value && forall j :: 0 <= j < |s| ==> low <= s[j].sentAt.value
    ensures InTimeOrder(InsertMessage(m, s))
    ensures forall j :: 0 <= j < |InsertMessage(m, s)| ==> low <= InsertMessage(m, s)[j].sentAt.value
  {
    if s != [] && m.sentAt.value >= s[0].sentAt.value {
      InsertMessageOrders(m, s[1..], s[0].sentAt.value);
      InTimeCons(s[0], InsertMessage(m, s[1..]));
    } else {
      InTimeCons(m, s);
    }
  }

  lemma {:induction false} SortMessagesSorts(s: seq<Message>)
    ensures InTimeOrder(SortMessages(s))
  {
    if s != [] {
      var front, last := s[..|s| - 1], s[|s| - 1];
      var t := SortMessages(front);
      SortMessagesSorts(front);
      if last.sentAt.Some? {
        InsertMessageOrders(last, t, if t == [] || last.sentAt.value < t[0].sentAt.value then last.sentAt.value else t[0].sentAt.value);
      }
    }
  }

  /** Chain events by block. */
  predicate EventsFirst(xs: seq<Emitted>) {
    && (forall i :: 0 <= i < |xs| ==> xs[i].Chain?)
    && (forall i, j :: 0 <= i < j < |xs| ==> xs[i].event.block <= xs[j].event.block)
  }

  /** Messages by time. */
  predicate MessagesLast(xs: seq<Emitted>) {
    && (forall i :: 0 <= i < |xs| ==> xs[i].Xmtp? && xs[i].message.sentAt.Some?)
    && (forall i, j :: 0 <= i < j < |xs| ==> xs[i].message.sentAt.value <= xs[j].message.sentAt.value)
  }

  lemma {:induction false} NewEventsOrder(s: seq<ChainEvent>, c: Cursor)
    requires InBlockOrder(s)
    ensures EventsFirst(NewEvents(s, c))
  {
    if s != [] {
      var front, last := s[..|s| - 1], s[|s| - 1];
      NewEventsOrder(front, c);
      NewEventsAre(front, c);
      var xs := NewEvents(front, c);
      assert forall i :: 0 <= i < |xs| ==> xs[i] in xs;
    }
  }

  lemma {:induction false} NewMessagesOrder(s: seq<Message>, c: Cursor)
    requires InTimeOrder(s)
    ensures MessagesLast(NewMessages(s, c))
  {
    if s != [] {
      var front, last := s[..|s| - 1], s[|s| - 1];
      NewMessagesOrder(front, c);
      NewMessagesAre(front, c);
      var xs := NewMessages(front, c);
      assert forall i :: 0 <= i < |xs| ==> xs[i] in xs;
    }
  }

  /** The chain events come first, by block, then the messages, by time; each comes as often as the payload has it; and the
      cursor goes to the highest block and the latest time, or stays. */
  lemma TickInOrder(p: Payload, c: Cursor, x: Emitted) returns (n: nat)
    ensures n <= |Emission(p, c)| && EventsFirst(Emission(p, c)[..n]) && MessagesLast(Emission(p, c)[n..])
    ensures multiset(Emission(p, c))[x] ==
            if !(Wanted(x, p) && Above(x, c)) then 0
            else match x case Chain(e) => multiset(p.events)[e] case Xmtp(m) => multiset(p.messages)[m]
    ensures Advanced(p, c).block == c.block || exists i :: 0 <= i < |p.events| && p.events[i].block == Advanced(p, c).block
    ensures Advanced(p, c).timestamp == c.timestamp
            || exists i :: 0 <= i < |p.messages| && p.messages[i].sentAt == Some(Advanced(p, c).timestamp)
  {
    var es, ms := SortEvents(p.events), SortMessages(p.messages);
    var chain, xmtp := NewEvents(es, c), NewMessages(ms, c);
    n := |chain|;
    assert Emission(p, c)[..n] == chain && Emission(p, c)[n..] == xmtp;
    SortEventsSorts(p.events);
    SortMessagesSorts(p.messages);
    NewEventsOrder(es, c);
    NewMessagesOrder(ms, c);
    CountIs(p, c, x);
    CursorGoes(p, c);
  }

  lemma CountIs(p: Payload, c: Cursor, x: Emitted)
    ensures multiset(Emission(p, c))[x] ==
            if !(Wanted(x, p) && Above(x, c)) then 0
            else match x case Chain(e) => multiset(p.events)[e] case Xmtp(m) => multiset(p.messages)[m]
  {
    var es, ms := SortEvents(p.events), SortMessages(p.messages);
    assert multiset(Emission(p, c))[x] == multiset(NewEvents(es, c))[x] + multiset(NewMessages(ms, c))[x];
    match x {
      case Chain(e) =>
        SortEventsSorts(p.events);
        NewEventsCount(es, c, e);
        NewMessagesCount(ms, c, Message("", None, ""));
      case Xmtp(m) =>
        SortMessagesCount(p.messages, m);
        NewEventsCount(es, c, ChainEvent("", 0, ""));
        NewMessagesCount(ms, c, m);
    }
  }

  lemma CursorGoes(p: Payload, c: Cursor)
    ensures Advanced(p, c).block == c.block || exists i :: 0 <= i < |p.events| && p.events[i].block == Advanced(p, c).block
    ensures Advanced(p, c).timestamp == c.timestamp
            || exists i :: 0 <= i < |p.messages| && p.messages[i].sentAt == Some(Advanced(p, c).timestamp)
  {
    var es, ms := SortEvents(p.events), SortMessages(p.messages);
    if Advanced(p, c).block != c.block {
      var i :| 0 <= i < |es| && es[i].block == Advanced(p, c).block;
      SortedHas(p.events, es[i]);
    }
    if Advanced(p, c).timestamp != c.timestamp {
      var i :| 0 <= i < |ms| && ms[i].sentAt == Some(Advanced(p, c).timestamp);
      SortMessagesKeeps(p.messages);
      assert ms[i] in p.messages;
    }
  }
}
