/** What the pitch flow holds of the messages of people (sherwood_monitor/telegram/flow.py `_seen`): a window of 1000 and the set
    beside it, against everything that was sent. */
module Heard {

  /** The window after the messages `said`, oldest first. */
  function LastThousand(said: seq<int>): seq<int> {
    if |said| <= 1000 then said else said[|said| - 1000..]
  }

  /** Whether the set holds an id after the messages `said`: it was sent, and each sending that has left the window since has a
      later one, when it left or after. */
  predicate Remembered(said: seq<int>, id: int) {
    id in said && forall p :: 0 <= p < |said| - 1000 && said[p] == id ==> id in said[p + 1000..]
  }

  ghost predicate Holds(said: seq<int>, ids: set<int>) {
    forall id :: id in ids <==> Remembered(said, id)
  }

  lemma LastThousandStep(said: seq<int>, more: int)
    ensures LastThousand(said + [more]) == (if |said| >= 1000 then LastThousand(said)[1..] else said) + [more]
  {}

  lemma InSnoc(said: seq<int>, more: int, id: int)
    ensures id in said + [more] <==> id == more || id in said
  {}

  lemma TailSnoc(said: seq<int>, more: int, p: nat)
    requires p <= |said|
    ensures (said + [more])[p..] == said[p..] + [more]
  {}

  lemma NewIsRemembered(said: seq<int>, id: int)
    ensures Remembered(said + [id], id)
  {
    var longer := said + [id];
    forall p: nat | p < |longer| - 1000 && longer[p] == id
      ensures id in longer[p + 1000..]
    {
      TailSnoc(said, id, p + 1000);
      InSnoc(said[p + 1000..], id, id);
    }
    InSnoc(said, id, id);
  }

  lemma OldIsRemembered(said: seq<int>, more: int, id: int)
    requires id != more
    ensures Remembered(said + [more], id) <==> Remembered(said, id) && !(|said| >= 1000 && said[|said| - 1000] == id)
  {
    var longer := said + [more];
    InSnoc(said, more, id);
    forall p: nat | p < |longer| - 1000 && longer[p] == id
      ensures id in longer[p + 1000..] <==> id in said[p + 1000..]
    {
      TailSnoc(said, more, p + 1000);
      InSnoc(said[p + 1000..], more, id);
    }
    if |said| >= 1000 {
      var p := |said| - 1000;
      assert longer[p] == said[p] && said[p + 1000..] == [];
    }
    assert forall p :: 0 <= p < |said| - 1000 ==> longer[p] == said[p];
  }

  /** One more message: the oldest id of a full window goes, and the new one comes. */
  lemma HoldsStep(said: seq<int>, ids: set<int>, more: int)
    requires Holds(said, ids)
    ensures Holds(said + [more], (if |said| >= 1000 then ids - {LastThousand(said)[0]} else ids) + {more})
  {
    forall id
      ensures Remembered(said + [more], id)
              <==> id == more || (id in ids && !(|said| >= 1000 && said[|said| - 1000] == id))
    {
      if id == more {
        NewIsRemembered(said, id);
      } else {
        OldIsRemembered(said, more, id);
      }
    }
  }

  lemma {:induction false} LastPlace(said: seq<int>, id: int) returns (t: nat)
    requires id in said
    ensures t < |said| && said[t] == id && id !in said[t + 1..]
  {
    t := |said| - 1;
    if said[t] != id {
      assert said == said[..t] + [said[t]];
      var k := LastPlace(said[..t], id);
      assert said[k + 1..] == said[..t][k + 1..] + [said[t]];
      t := k;
    }
  }

  lemma LaterToo(said: seq<int>, t: nat, id: int)
    ensures t + 1000 <= |said| && id in said[t + 1000..] ==> id in said[t + 1..]
  {
    if t + 1000 <= |said| {
      assert said[t + 1..] == said[t + 1..t + 1000] + said[t + 1000..];
    }
  }

  /** An id is held exactly when it is one of the last 1000 and none of its sendings left the window after its last one. So of
      messages that all differ exactly the last 1000 are held. */
  lemma RememberedIff(said: seq<int>, id: int)
    ensures Remembered(said, id) <==>
              id in LastThousand(said) && !exists p :: 0 <= p < |said| - 1000 && said[p] == id && id !in said[p + 1000..]
  {
    assert id in LastThousand(said) ==> id in said;
    if Remembered(said, id) {
      var t := LastPlace(said, id);
      LaterToo(said, t, id);
      if t >= |said| - 1000 {
        assert LastThousand(said)[if |said| <= 1000 then t else t - (|said| - 1000)] == id;
      }
    }
  }

  /** A message sent twice can be forgotten while it is among the last 1000. */
  lemma RepeatForgotten() returns (said: seq<int>, id: int)
    ensures id in LastThousand(said) && !Remembered(said, id)
  {
    said, id := seq(1001, i => if i == 0 || i == 500 then 7 else -i), 7;
    assert LastThousand(said)[499] == 7;
    assert said[1000..] == [-1000];
    assert said[0] == id;
  }

  /** The flow's two maps, chat by chat. */
  ghost predicate SeenOk(said: map<int, seq<int>>, order: map<int, seq<int>>, ids: map<int, set<int>>) {
    && said.Keys == order.Keys == ids.Keys
    && forall chat :: chat in said ==> order[chat] == LastThousand(said[chat]) && Holds(said[chat], ids[chat])
  }

  lemma SeenStep(said: map<int, seq<int>>, order: map<int, seq<int>>, ids: map<int, set<int>>, chat: int, id: int)
    requires SeenOk(said, order, ids)
    ensures var h := if chat in said then said[chat] else [];
            var o := if chat in order then order[chat] else [];
            var held := if chat in ids then ids[chat] else {};
            SeenOk(said[chat := h + [id]], order[chat := (if |o| >= 1000 then o[1..] else o) + [id]],
                   ids[chat := (if |o| >= 1000 then held - {o[0]} else held) + {id}])
  {
    var h := if chat in said then said[chat] else [];
    var held := if chat in ids then ids[chat] else {};
    assert Holds([], {});
    LastThousandStep(h, id);
    HoldsStep(h, held, id);
  }
}
