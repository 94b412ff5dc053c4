/** Matching JSON-RPC replies to calls over one pipe (sherwood_monitor/sidecar.py, `call` and `_read_stdout`).
    Each method is the code between two awaits, so any order of method calls is an interleaving of any number of callers,
    the reader, timeouts and cancellations. A future is the `result` of its call. */
module Sidecar {
  import opened Text

  /** A decoded reply line; a notification has no id and never gets here. A null id is None. */
  datatype Reply = Reply(id: Option<int>, payload: string)

  datatype Outcome = Returned(reply: Reply) | TimedOut | DrainFailed

  datatype Phase = Draining | Awaiting | Ended(outcome: Outcome)

  datatype Call = Call(id: int, result: Option<Reply>, phase: Phase)
  {
    /** Its future is done or the caller has gone. */
    predicate Finished() {
      result.Some? || phase.Ended?
    }
  }

  // ----- what is kept, part by part

  /** Ids are handed out 1, 2, 3, ...; a done future, and a call that returned, hold a reply with the call's own id. */
  predicate CallsOk(calls: seq<Call>) {
    forall h :: 0 <= h < |calls| ==> calls[h].id == h + 1 && CallOk(calls[h])
  }

  predicate CallOk(c: Call) {
    && (c.result.Some? ==> c.result.value.id == Some(c.id))
    && (c.phase.Ended? && c.phase.outcome.Returned? ==> c.phase.outcome.reply.id == Some(c.id) && c.result.Some?)
  }

  /** Pending ids name their own calls, and a call that has not ended is pending. */
  predicate PendingOk(calls: seq<Call>, pending: map<int, nat>) {
    && (forall id :: id in pending ==> pending[id] < |calls| && pending[id] == id - 1)
    && (forall h :: 0 <= h < |calls| && !calls[h].phase.Ended? ==> h + 1 in pending)
  }

  predicate WriterOk(calls: seq<Call>, writer: Option<nat>) {
    && (writer.Some? ==> writer.value < |calls|)
    && (forall h :: 0 <= h < |calls| ==> (calls[h].phase == Draining <==> writer == Some(h)))
  }

  /** Every future that is done was completed once, and no other was. */
  predicate CompletionsOk(calls: seq<Call>, completions: seq<nat>) {
    && (forall i, j :: 0 <= i < j < |completions| ==> completions[i] != completions[j])
    && (forall i :: 0 <= i < |completions| ==> completions[i] < |calls|)
    && (forall h :: 0 <= h < |calls| ==> (calls[h].result.Some? <==> h in completions))
  }

  predicate BufferOk(buffer: map<int, Reply>) {
    forall id :: id in buffer ==> buffer[id].id == Some(id)
  }

  /** `fut is not None and not fut.done()` for the reply's id. */
  predicate Completes(calls: seq<Call>, pending: map<int, nat>, m: Reply) {
    m.id.Some? && m.id.value in pending && pending[m.id.value] < |calls| && calls[pending[m.id.value]].result.None?
  }

  /** Whatever is parked came too late. */
  predicate ParkedLate(calls: seq<Call>, buffer: map<int, Reply>) {
    forall id :: id in buffer ==> 1 <= id <= |calls| && calls[id - 1].Finished()
  }

  lemma Complete(calls: seq<Call>, completions: seq<nat>, h: nat, m: Reply)
    requires CallsOk(calls) && CompletionsOk(calls, completions)
    requires h < |calls| && calls[h].result.None? && m.id == Some(h + 1)
    ensures var cs := calls[h := calls[h].(result := Some(m))];
            CallsOk(cs) && CompletionsOk(cs, completions + [h])
  {
    var cs := calls[h := calls[h].(result := Some(m))];
    assert h !in completions;
    assert forall k :: 0 <= k < |cs| ==> (k in completions + [h] <==> k in completions || k == h);
  }

  lemma Finish(calls: seq<Call>, completions: seq<nat>, pending: map<int, nat>, h: nat, o: Outcome)
    requires CallsOk(calls) && CompletionsOk(calls, completions) && PendingOk(calls, pending)
    requires h < |calls| && (o.Returned? ==> calls[h].result == Some(o.reply))
    ensures var cs := calls[h := calls[h].(phase := Ended(o))];
            CallsOk(cs) && CompletionsOk(cs, completions) && PendingOk(cs, pending) && PendingOk(cs, pending - {h + 1})
  {
    var cs := calls[h := calls[h].(phase := Ended(o))];
    assert CallsOk(cs);
    assert forall k :: 0 <= k < |cs| ==> cs[k].result == calls[k].result;
  }

  lemma BufferShrinks(calls: seq<Call>, buffer: map<int, Reply>, id: int)
    requires BufferOk(buffer)
    ensures BufferOk(buffer - {id}) && (ParkedLate(calls, buffer) ==> ParkedLate(calls, buffer - {id}))
  {}

  /** A reply to a sent id that completes nothing: its future is done or its call is over. */
  lemma LateIsFinished(calls: seq<Call>, pending: map<int, nat>, m: Reply)
    requires PendingOk(calls, pending) && m.id.Some? && 1 <= m.id.value <= |calls| && !Completes(calls, pending, m)
    ensures calls[m.id.value - 1].Finished()
  {}

  lemma Park(calls: seq<Call>, buffer: map<int, Reply>, m: Reply)
    requires BufferOk(buffer) && m.id.Some?
    ensures BufferOk(buffer[m.id.value := m])
    ensures ParkedLate(calls, buffer) && 1 <= m.id.value <= |calls| && calls[m.id.value - 1].Finished() ==>
              ParkedLate(calls, buffer[m.id.value := m])
  {}

  lemma WakeUp(calls: seq<Call>, completions: seq<nat>, pending: map<int, nat>, h: nat)
    requires CallsOk(calls) && CompletionsOk(calls, completions) && PendingOk(calls, pending)
    requires h < |calls| && calls[h].phase == Draining
    ensures var cs := calls[h := calls[h].(phase := Awaiting)];
            CallsOk(cs) && CompletionsOk(cs, completions) && PendingOk(cs, pending)
  {
    var cs := calls[h := calls[h].(phase := Awaiting)];
    assert forall k :: 0 <= k < |cs| ==> cs[k].result == calls[k].result;
  }

  lemma StaysParked(calls: seq<Call>, cs: seq<Call>, buffer: map<int, Reply>)
    requires ParkedLate(calls, buffer) && |calls| <= |cs|
    requires forall k :: 0 <= k < |calls| && calls[k].Finished() ==> cs[k].Finished()
    ensures ParkedLate(cs, buffer)
  {}

  class Sidecar {
    var nextId: int
    var pending: map<int, nat>          // request id -> the call whose future waits
    var responseBuffer: map<int, Reply>
    var calls: seq<Call>                // every call so far, in order of request
    var writer: Option<nat>             // who holds the stdin lock
    ghost var completions: seq<nat>     // whose future was completed, in order
    ghost var honest: bool              // so far every reply carried an id that had been sent

    ghost predicate Sent(id: Option<int>)
      reads this
    {
      id.Some? && 1 <= id.value < nextId
    }

    ghost predicate Valid()
      reads this
    {
      && nextId == |calls| + 1
      && CallsOk(calls)
      && PendingOk(calls, pending)
      && WriterOk(calls, writer)
      && CompletionsOk(calls, completions)
      && BufferOk(responseBuffer)
      && (honest ==> ParkedLate(calls, responseBuffer))
    }

    constructor ()
      ensures Valid() && calls == [] && honest
    {
      nextId, pending, responseBuffer, calls, writer := 1, map[], map[], [], None;
      completions, honest := [], true;
    }

    /** The lock is free: take the next id, register the future, write the line; the drain is awaited with the lock held. */
    method BeginCall() returns (h: nat)
      requires Valid() && writer.None?
      modifies this`nextId, this`pending, this`calls, this`writer
      ensures Valid() && h == |old(calls)| && writer == Some(h) && nextId == old(nextId) + 1
      ensures calls == old(calls) + [Call(old(nextId), None, Draining)]
      ensures pending == old(pending)[old(nextId) := h]
    {
      h := |calls|;
      var id := nextId;
      nextId := nextId + 1;
      pending := pending[id := h];
      calls := calls + [Call(id, None, Draining)];
      writer := Some(h);
    }

    /** The drain is over: look into the buffer, release the lock, start waiting.
        With an honest sidecar the buffer never completes a future: a reply parked there comes too late for this one. */
    method EndDrain()
      requires Valid() && writer.Some?
      modifies this`responseBuffer, this`calls, this`writer, this`completions
      ensures Valid() && writer.None? && |calls| == |old(calls)|
      ensures forall k :: 0 <= k < |calls| && old(writer) != Some(k) ==> calls[k] == old(calls)[k]
      ensures var h := old(writer).value;
              && calls[h].phase == Awaiting && calls[h].id == old(calls)[h].id
              && responseBuffer == old(responseBuffer) - {calls[h].id}
              && (old(calls)[h].result.Some? ==> calls[h].result == old(calls)[h].result)
              && (honest ==> calls[h].result == old(calls)[h].result && completions == old(completions))
    {
      var h := writer.value;
      TakeBuffered(h);
      WakeUp(calls, completions, pending, h);
      ghost var before := calls;
      calls := calls[h := calls[h].(phase := Awaiting)];
      writer := None;
      if honest {
        StaysParked(before, calls, responseBuffer);
      }
    }

    /** The look into the buffer for a reply that is already there. */
    method TakeBuffered(h: nat)
      requires Valid() && writer == Some(h)
      modifies this`responseBuffer, this`calls, this`completions
      ensures Valid() && |calls| == |old(calls)| && responseBuffer == old(responseBuffer) - {calls[h].id}
      ensures forall k :: 0 <= k < |calls| && k != h ==> calls[k] == old(calls)[k]
      ensures calls[h] == old(calls)[h].(result := calls[h].result)
      ensures old(calls)[h].result.Some? || honest ==> calls == old(calls) && completions == old(completions)
    {
      var id := calls[h].id;
      if id in responseBuffer {
        var buffered := responseBuffer[id];
        responseBuffer := responseBuffer - {id};
        BufferShrinks(calls, old(responseBuffer), id);
        assert old(honest) ==> calls[h].Finished();
        if calls[h].result.None? {
          Complete(calls, completions, h, buffered);
          calls := calls[h := calls[h].(result := Some(buffered))];
          completions := completions + [h];
        }
      }
    }

    /** The drain raised or the caller was cancelled during it: the lock is released, the pending entry stays. */
    method FailDrain()
      requires Valid() && writer.Some?
      modifies this`calls, this`writer
      ensures Valid() && writer.None?
      ensures calls == old(calls)[old(writer).value := old(calls)[old(writer).value].(phase := Ended(DrainFailed))]
    {
      var h := writer.value;
      Finish(calls, completions, pending, h, DrainFailed);
      calls := calls[h := calls[h].(phase := Ended(DrainFailed))];
      writer := None;
      if honest {
        StaysParked(old(calls), calls, responseBuffer);
      }
    }

    /** The reader gets a reply: it completes the pending future of that id if that is not done yet, and parks the reply
        otherwise. If only sent ids are answered, it is parked only when the future or the call is already finished. */
    method Deliver(m: Reply)
      requires Valid()
      modifies this`calls, this`responseBuffer, this`completions, this`honest
      ensures Valid() && honest == (old(honest) && old(Sent(m.id)))
      ensures if Completes(old(calls), pending, m)
              then calls == old(calls)[pending[m.id.value] := old(calls)[pending[m.id.value]].(result := Some(m))]
                   && responseBuffer == old(responseBuffer)
              else calls == old(calls)
                   && responseBuffer == (if m.id.Some? then old(responseBuffer)[m.id.value := m] else old(responseBuffer))
      ensures old(Sent(m.id)) && !Completes(old(calls), pending, m) ==> old(calls)[m.id.value - 1].Finished()
    {
      honest := honest && Sent(m.id);
      if Completes(calls, pending, m) {
        var id := m.id.value;
        var h := pending[id];
        assert m.id == Some(h + 1);
        Complete(calls, completions, h, m);
        calls := calls[h := calls[h].(result := Some(m))];
        completions := completions + [h];
        if honest {
          StaysParked(old(calls), calls, responseBuffer);
        }
      } else {
        if Sent(m.id) {
          LateIsFinished(calls, pending, m);
        }
        if m.id.Some? {
          Park(calls, responseBuffer, m);
          responseBuffer := responseBuffer[m.id.value := m];
        }
      }
    }

    /** The caller wakes up with its result: it is a reply to its own request. */
    method Return(h: nat) returns (reply: Reply)
      requires Valid() && h < |calls| && calls[h].phase == Awaiting && calls[h].result.Some?
      modifies this`calls, this`pending
      ensures Valid() && reply.id == Some(old(calls)[h].id) && Some(reply) == old(calls)[h].result
      ensures calls == old(calls)[h := old(calls)[h].(phase := Ended(Returned(reply)))]
      ensures pending == old(pending) - {old(calls)[h].id}
    {
      reply := calls[h].result.value;
      Finish(calls, completions, pending, h, Returned(reply));
      pending := pending - {calls[h].id};
      calls := calls[h := calls[h].(phase := Ended(Returned(reply)))];
      if honest {
        StaysParked(old(calls), calls, responseBuffer);
      }
    }

    /** The wait timed out or was cancelled; the shielded future is left to itself and is no longer pending. */
    method TimeOut(h: nat)
      requires Valid() && h < |calls| && calls[h].phase == Awaiting
      modifies this`calls, this`pending
      ensures Valid() && calls == old(calls)[h := old(calls)[h].(phase := Ended(TimedOut))]
      ensures pending == old(pending) - {old(calls)[h].id}
    {
      Finish(calls, completions, pending, h, TimedOut);
      pending := pending - {calls[h].id};
      calls := calls[h := calls[h].(phase := Ended(TimedOut))];
      if honest {
        StaysParked(old(calls), calls, responseBuffer);
      }
    }
  }

  /** What every interleaving has kept, said of one call. */
  lemma CallFacts(s: Sidecar, h: nat, k: nat)
    requires s.Valid() && h < |s.calls| && k < |s.calls|
    ensures h != k ==> s.calls[h].id != s.calls[k].id
    ensures s.calls[h].phase.Ended? && s.calls[h].phase.outcome.Returned? ==>
              s.calls[h].phase.outcome.reply.id == Some(s.calls[h].id)
    ensures multiset(s.completions)[h] == if s.calls[h].result.Some? then 1 else 0
    ensures s.honest && s.calls[h].id in s.responseBuffer ==> s.calls[h].Finished()
  {
    CountOnce(s.completions, h);
  }

  lemma {:induction false} CountOnce(xs: seq<nat>, x: nat)
    requires forall i, j :: 0 <= i < j < |xs| ==> xs[i] != xs[j]
    ensures multiset(xs)[x] == if x in xs then 1 else 0
  {
    if xs != [] {
      CountOnce(xs[1..], x);
      assert xs == [xs[0]] + xs[1..];
      assert xs[0] !in xs[1..];
    }
  }
}
